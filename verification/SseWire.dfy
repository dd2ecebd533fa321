/** Frames on the wire and the client that reads them back (src/server/handlers/push_events.rs and the
    watch loop of clients/rust/src/client.rs). Frame syntax: section 9.2 of the WHATWG HTML Standard.
    Characters stand for bytes; a line feed is a single byte in UTF-8. */
module SseWire {
  import Decimal
  import opened Optional
  import Trimming
  import Sequences

  const U64_LIMIT := 0x1_0000_0000_0000_0000

  datatype Frame = Comment(text: string) | Data(id: Option<nat>, name: string, payload: string)

  predicate OneLine(s: string) { '\n' !in s }

  predicate WellFormed(f: Frame) {
    match f
    case Comment(text) => OneLine(text)
    case Data(id, name, payload) => OneLine(name) && OneLine(payload) && (id.Some? ==> id.value < U64_LIMIT)
  }

  function Lines(f: Frame): seq<string> {
    match f
    case Comment(text) => [": " + text, ""]
    case Data(None, name, payload) => ["event: " + name, "data: " + payload, ""]
    case Data(Some(id), name, payload) => ["id: " + Decimal.Render(id), "event: " + name, "data: " + payload, ""]
  }

  function AllLines(fs: seq<Frame>): seq<string> {
    if fs == [] then [] else Lines(fs[0]) + AllLines(fs[1..])
  }

  function Text(lines: seq<string>): string {
    if lines == [] then "" else lines[0] + "\n" + Text(lines[1..])
  }

  // ---- The client ----

  /** `pending`: the id of a frame whose data has not come yet; `last`: the cursor sent on reconnect. */
  datatype Client = Client(pending: Option<nat>, last: Option<nat>)

  /** One item handed to the caller, with the id committed by it. */
  datatype Entry = Entry(id: Option<nat>, payload: string)

  /** `str::parse::<u64>`. */
  function ParseU64(s: string): Option<nat> {
    var digits := if s != "" && s[0] == '+' then s[1..] else s;
    if digits == "" || exists c :: c in digits && !Decimal.IsDigit(c) then None
    else if Decimal.Value(digits) < U64_LIMIT then Some(Decimal.Value(digits)) else None
  }

  function Feed(c: Client, line: string): (Client, seq<Entry>) {
    if "id:" <= line then
      var id := ParseU64(Trimming.Trim(line[3..]));
      (if id.Some? then c.(pending := id) else c, [])
    else if "data:" <= line then
      var rest := line[5..];
      var payload := if " " <= rest then rest[1..] else rest;
      (Client(None, if c.pending.Some? then c.pending else c.last), [Entry(c.pending, payload)])
    else (c, [])
  }

  function FeedAll(c: Client, lines: seq<string>): (Client, seq<Entry>)
    decreases |lines|
  {
    if lines == [] then (c, [])
    else
      var (c1, e) := Feed(c, lines[0]);
      var (c2, es) := FeedAll(c1, lines[1..]);
      (c2, e + es)
  }

  /** The complete lines of a text, and what is left after the last line feed. */
  function Split(text: string): (seq<string>, string) {
    if OneLine(text) then ([], text)
    else
      var (lines, rest) := Split(text[1..]);
      if text[0] == '\n' then ([""] + lines, rest)
      else ([[text[0]] + lines[0]] + lines[1..], rest)
  }

  lemma {:induction false} SplitHead(line: string, rest: string)
    requires OneLine(line)
    ensures Split(line + "\n" + rest) == ([line] + Split(rest).0, Split(rest).1)
  {
    var text := line + "\n" + rest;
    assert text[|line|] == '\n';
    if line == "" {
      assert text[1..] == rest;
    } else {
      SplitHead(line[1..], rest);
      assert text[1..] == line[1..] + "\n" + rest;
      assert line == [line[0]] + line[1..];
    }
  }

  lemma SplitAfter(text: string, line: string, rest: string)
    requires OneLine(line) && text == line + "\n" + rest
    ensures Split(text).0 == [line] + Split(rest).0 && Split(text).1 == Split(rest).1
  {
    SplitHead(line, rest);
  }

  predicate SplitsAcross(a: string, b: string) {
    && Split(a + b).0 == Split(a).0 + Split(Split(a).1 + b).0
    && Split(a + b).1 == Split(Split(a).1 + b).1
  }

  lemma SplitsAfter(text: string, line: string, rest: string, b: string)
    requires OneLine(line) && text == line + "\n" + rest && SplitsAcross(rest, b)
    ensures SplitsAcross(text, b)
  {
    Sequences.Join(line + "\n", rest, b);
    SplitAfter(text, line, rest);
    SplitAfter(text + b, line, rest + b);
    Sequences.Join([line], Split(rest).0, Split(Split(rest).1 + b).0);
  }

  /** Lines read from a text do not depend on where it was cut into chunks. */
  lemma {:induction false} SplitConcat(a: string, b: string)
    ensures SplitsAcross(a, b)
    decreases |a|
  {
    if OneLine(a) {
      Sequences.Nothing(Split(a + b).0);
    } else {
      var n := FirstFeed(a);
      var line, rest := a[..n], a[n + 1..];
      SplitConcat(rest, b);
      SplitsAfter(a, line, rest, b);
    }
  }

  function FirstFeed(s: string): (n: nat)
    requires !OneLine(s)
    ensures n < |s| && s[n] == '\n' && OneLine(s[..n])
  {
    if s[0] == '\n' then 0
    else
      assert s == [s[0]] + s[1..];
      var m := FirstFeed(s[1..]);
      assert s[..m + 1] == [s[0]] + s[1..][..m];
      m + 1
  }

  lemma {:induction false} FeedAllConcat(c: Client, xs: seq<string>, ys: seq<string>)
    ensures FeedAll(c, xs + ys) ==
            (FeedAll(FeedAll(c, xs).0, ys).0, FeedAll(c, xs).1 + FeedAll(FeedAll(c, xs).0, ys).1)
    decreases |xs|
  {
    if xs == [] {
      assert xs + ys == ys;
      assert [] + FeedAll(c, ys).1 == FeedAll(c, ys).1;
    } else {
      var (c1, e) := Feed(c, xs[0]);
      FeedAllConcat(c1, xs[1..], ys);
      assert (xs + ys)[0] == xs[0] && (xs + ys)[1..] == xs[1..] + ys;
      var es, fs := FeedAll(c1, xs[1..]).1, FeedAll(FeedAll(c1, xs[1..]).0, ys).1;
      assert e + (es + fs) == (e + es) + fs;
    }
  }

  lemma FeedSnoc(c: Client, lines: seq<string>, line: string)
    ensures var (c1, es) := FeedAll(c, lines);
            var (c2, e) := Feed(c1, line);
            FeedAll(c, lines + [line]) == (c2, es + e)
  {
    FeedAllConcat(c, lines, [line]);
    Sequences.Sole(line);
    Sequences.Nothing(Feed(FeedAll(c, lines).0, line).1);
  }

  /** The chunk loop of one connection: bytes are buffered, complete lines are fed in order. */
  class Watch {
    var buf: string
    var sse: Client

    constructor ()
      ensures buf == "" && sse == Client(None, None)
    {
      buf, sse := "", Client(None, None);
    }

    /** A new connection drops the bytes and the pending id of the last one; the cursor stays. */
    method BeginConnection()
      modifies this
      ensures buf == "" && sse == Client(None, old(sse).last)
    {
      buf := "";
      sse := sse.(pending := None);
    }

    method Receive(chunk: string) returns (out: seq<Entry>)
      modifies this
      ensures (sse, out) == FeedAll(old(sse), Split(old(buf) + chunk).0)
      ensures buf == Split(old(buf) + chunk).1
    {
      ghost var text, start := buf + chunk, sse;
      buf := buf + chunk;
      out := [];
      ghost var fed: seq<string> := [];
      while !OneLine(buf)
        invariant Split(text).0 == fed + Split(buf).0 && Split(text).1 == Split(buf).1
        invariant (sse, out) == FeedAll(start, fed)
        decreases |buf|
      {
        var n := FirstFeed(buf);
        var line := buf[..n];
        SplitAfter(buf, line, buf[n + 1..]);
        Sequences.Join(fed, [line], Split(buf[n + 1..]).0);
        buf := buf[n + 1..];
        FeedSnoc(start, fed, line);
        fed := fed + [line];
        var step := Feed(sse, line);
        sse, out := step.0, out + step.1;
      }
      Sequences.Nothing(fed);
    }
  }

  // ---- What a prefix of a frame stream does to a client ----

  lemma {:induction false} TextConcat(xs: seq<string>, ys: seq<string>)
    ensures Text(xs + ys) == Text(xs) + Text(ys)
    decreases |xs|
  {
    if xs == [] {
      assert xs + ys == ys;
    } else {
      TextConcat(xs[1..], ys);
      assert (xs + ys)[1..] == xs[1..] + ys;
    }
  }

  lemma {:induction false} AllLinesConcat(fs: seq<Frame>, gs: seq<Frame>)
    ensures AllLines(fs + gs) == AllLines(fs) + AllLines(gs)
  {
    if fs == [] {
      assert fs + gs == gs;
    } else {
      AllLinesConcat(fs[1..], gs);
      assert (fs + gs)[0] == fs[0] && (fs + gs)[1..] == fs[1..] + gs;
      Sequences.Join(Lines(fs[0]), AllLines(fs[1..]), AllLines(gs));
    }
  }

  /** A prefix of a text gives a prefix of its lines. */
  lemma {:induction false} PrefixLines(lines: seq<string>, n: nat)
    requires forall i :: 0 <= i < |lines| ==> OneLine(lines[i])
    requires n <= |Text(lines)|
    ensures Split(Text(lines)[..n]).0 <= lines
    decreases |lines|
  {
    if lines != [] {
      var line, tail := lines[0], Text(lines[1..]);
      var cut := Text(lines)[..n];
      if n <= |line| {
        assert cut == line[..n];
        assert OneLine(cut);
      } else {
        var m := n - |line| - 1;
        PrefixLines(lines[1..], m);
        PrefixAfter(cut, line, tail[..m], lines[1..]);
        assert lines == [line] + lines[1..];
      }
    }
  }

  lemma PrefixAfter(cut: string, line: string, rest: string, lines: seq<string>)
    requires OneLine(line) && cut == line + "\n" + rest
    requires Split(rest).0 <= lines
    ensures Split(cut).0 <= [line] + lines
  {
    SplitAfter(cut, line, rest);
  }

  lemma {:induction false} TrimDigits(s: string)
    requires s != "" && forall c :: c in s ==> Decimal.IsDigit(c)
    ensures Trimming.Trim(" " + s) == s
  {
    assert (" " + s)[1..] == s;
    assert Decimal.IsDigit(s[0]) && Decimal.IsDigit(s[|s| - 1]);
    assert Trimming.TrimStart(" " + s) == Trimming.TrimStart(s) == s;
    assert Trimming.TrimEnd(s) == s;
  }

  lemma FeedId(c: Client, id: nat)
    requires id < U64_LIMIT
    ensures Feed(c, "id: " + Decimal.Render(id)) == (c.(pending := Some(id)), [])
  {
    var digits := Decimal.Render(id);
    var line := "id: " + digits;
    assert line[..3] == "id:" && line[3..] == " " + digits;
    TrimDigits(digits);
    assert digits[0] in digits;
    Decimal.ValueOfRender(id);
  }

  lemma FeedEvent(c: Client, name: string)
    ensures Feed(c, "event: " + name) == (c, [])
  {
    var line := "event: " + name;
    assert line[0] == 'e';
  }

  lemma FeedData(c: Client, payload: string)
    ensures Feed(c, "data: " + payload)
         == (Client(None, if c.pending.Some? then c.pending else c.last), [Entry(c.pending, payload)])
  {
    var line := "data: " + payload;
    assert line[..5] == "data:" && line[5..] == " " + payload && (" " + payload)[1..] == payload;
    assert line[0] == 'd';
  }

  /** The items a stream of frames carries, and the cursor after the first of them. */
  function Entries(fs: seq<Frame>): seq<Entry> {
    if fs == [] then []
    else (if fs[0].Data? then [Entry(fs[0].id, fs[0].payload)] else []) + Entries(fs[1..])
  }

  function Cursor(last: Option<nat>, es: seq<Entry>): Option<nat>
    decreases |es|
  {
    if es == [] then last else Cursor(if es[0].id.Some? then es[0].id else last, es[1..])
  }

  lemma FeedNext(c: Client, lines: seq<string>, i: nat)
    requires i < |lines|
    ensures var (c1, es) := FeedAll(c, lines[..i]);
            var (c2, e) := Feed(c1, lines[i]);
            FeedAll(c, lines[..i + 1]) == (c2, es + e)
  {
    FeedSnoc(c, lines[..i], lines[i]);
    Sequences.TakeNext(lines, i);
  }

  lemma FeedNone(c: Client, lines: seq<string>)
    ensures FeedAll(c, lines[..0]) == (c, [])
  {
    assert lines[..0] == [];
  }

  lemma FeedOther(c: Client, line: string)
    requires line == "" || line[0] == ':'
    ensures Feed(c, line) == (c, [])
  {
  }

  lemma {:induction false} CommentPart(c: Client, text: string, j: nat)
    requires j <= 2
    ensures FeedAll(c, Lines(Comment(text))[..j]) == (c, [])
  {
    var l := Lines(Comment(text));
    if j == 0 {
      FeedNone(c, l);
    } else {
      CommentPart(c, text, j - 1);
      FeedNext(c, l, j - 1);
      FeedOther(c, l[j - 1]);
      Sequences.Nothing(FeedAll(c, l[..j - 1]).1);
    }
  }

  lemma {:induction false} PlainPart(c: Client, name: string, payload: string, j: nat)
    requires c.pending.None? && j <= 3
    ensures FeedAll(c, Lines(Data(None, name, payload))[..j]) == (c, if j < 2 then [] else [Entry(None, payload)])
  {
    var l := Lines(Data(None, name, payload));
    if j == 0 {
      FeedNone(c, l);
    } else {
      PlainPart(c, name, payload, j - 1);
      FeedNext(c, l, j - 1);
      Sequences.Nothing(FeedAll(c, l[..j - 1]).1);
      if j == 1 {
        FeedEvent(c, name);
      } else if j == 2 {
        FeedData(c, payload);
        Sequences.Nothing(Feed(c, l[1]).1);
      }
    }
  }

  lemma {:induction false} IdPart(c: Client, id: nat, name: string, payload: string, j: nat)
    requires c.pending.None? && id < U64_LIMIT && j <= 4
    ensures FeedAll(c, Lines(Data(Some(id), name, payload))[..j])
         == if j == 0 then (c, [])
            else if j < 3 then (c.(pending := Some(id)), [])
            else (Client(None, Some(id)), [Entry(Some(id), payload)])
  {
    var l, held := Lines(Data(Some(id), name, payload)), c.(pending := Some(id));
    if j == 0 {
      FeedNone(c, l);
    } else {
      IdPart(c, id, name, payload, j - 1);
      FeedNext(c, l, j - 1);
      Sequences.Nothing(FeedAll(c, l[..j - 1]).1);
      if j == 1 {
        FeedId(c, id);
      } else if j == 2 {
        FeedEvent(held, name);
      } else if j == 3 {
        FeedData(held, payload);
        Sequences.Nothing(Feed(held, l[2]).1);
      }
    }
  }

  lemma EntriesOne(f: Frame)
    ensures Entries([f]) == if f.Data? then [Entry(f.id, f.payload)] else []
  {
    assert [f][1..] == [];
  }

  /** The whole of one frame, and any number of its lines: nothing is handed over before the data line, and
      the id is committed exactly with it. */
  lemma FramePart(c: Client, f: Frame, j: nat)
    requires c.pending.None? && WellFormed(f) && j <= |Lines(f)|
    ensures var (c', es) := FeedAll(c, Lines(f)[..j]);
      && (es == [] || es == Entries([f])) && c'.last == Cursor(c.last, es)
      && (j == |Lines(f)| ==> es == Entries([f]) && c'.pending.None?)
  {
    EntriesOne(f);
    match f
    case Comment(text) => CommentPart(c, text, j);
    case Data(None, name, payload) =>
      PlainPart(c, name, payload, j);
      assert [Entry(None, payload)][1..] == [];
    case Data(Some(id), name, payload) =>
      IdPart(c, id, name, payload, j);
      assert [Entry(Some(id), payload)][1..] == [];
  }

  lemma {:induction false} CursorConcat(last: Option<nat>, xs: seq<Entry>, ys: seq<Entry>)
    ensures Cursor(last, xs + ys) == Cursor(Cursor(last, xs), ys)
    decreases |xs|
  {
    if xs == [] {
      assert xs + ys == ys;
    } else {
      CursorConcat(if xs[0].id.Some? then xs[0].id else last, xs[1..], ys);
      assert (xs + ys)[1..] == xs[1..] + ys;
    }
  }

  lemma TakeAcross(xs: seq<string>, ys: seq<string>, j: nat)
    requires j <= |xs + ys|
    ensures (xs + ys)[..j] == if j < |xs| then xs[..j] else xs + ys[..j - |xs|]
  {
  }

  /** Any number of lines of a frame stream: a prefix of its items is handed over, and the cursor is the
      last id among exactly those. */
  lemma {:induction false} StreamPart(c: Client, fs: seq<Frame>, j: nat)
    requires c.pending.None? && (forall i :: 0 <= i < |fs| ==> WellFormed(fs[i])) && j <= |AllLines(fs)|
    ensures FeedAll(c, AllLines(fs)[..j]).1 <= Entries(fs)
    ensures FeedAll(c, AllLines(fs)[..j]).0.last == Cursor(c.last, FeedAll(c, AllLines(fs)[..j]).1)
    decreases |fs|
  {
    if fs != [] {
      var whole := Lines(fs[0]);
      var n := |whole|;
      EntriesOne(fs[0]);
      TakeAcross(whole, AllLines(fs[1..]), j);
      FramePart(c, fs[0], if j < n then j else n);
      if j >= n {
        assert whole[..n] == whole;
        StreamRest(c, fs, j - n);
      }
    }
  }

  lemma {:induction false} StreamRest(c: Client, fs: seq<Frame>, k: nat)
    requires c.pending.None? && (forall i :: 0 <= i < |fs| ==> WellFormed(fs[i])) && fs != []
    requires k <= |AllLines(fs[1..])|
    ensures var (c', es) := FeedAll(c, Lines(fs[0]) + AllLines(fs[1..])[..k]);
            es <= Entries(fs) && c'.last == Cursor(c.last, es)
    decreases |fs|, 0
  {
    var whole, rest := Lines(fs[0]), AllLines(fs[1..])[..k];
    var first := Entries([fs[0]]);
    FramePart(c, fs[0], |whole|);
    assert whole[..|whole|] == whole;
    EntriesOne(fs[0]);
    FeedAllConcat(c, whole, rest);
    var c1 := FeedAll(c, whole).0;
    StreamPart(c1, fs[1..], k);
    CursorConcat(c.last, first, FeedAll(c1, rest).1);
    assert Entries(fs) == first + Entries(fs[1..]);
  }

  lemma {:induction false} LinesAreSingle(fs: seq<Frame>)
    requires forall i :: 0 <= i < |fs| ==> WellFormed(fs[i])
    ensures forall i :: 0 <= i < |AllLines(fs)| ==> OneLine(AllLines(fs)[i])
  {
    if fs != [] {
      LinesAreSingle(fs[1..]);
      var f := fs[0];
      if f.Data? && f.id.Some? {
        var digits := Decimal.Render(f.id.value);
        assert forall c :: c in digits ==> c != '\n';
      }
      assert forall i :: 0 <= i < |Lines(f)| ==> OneLine(Lines(f)[i]);
    }
  }

  /** A connection cut at any byte, its bytes in any chunks: the client handed over a prefix of the frames'
      items, and its cursor is the last id among exactly those, or what it was before. */
  lemma PrefixCommitsWhatItDelivers(c: Client, fs: seq<Frame>, n: nat)
    requires c.pending.None? && (forall i :: 0 <= i < |fs| ==> WellFormed(fs[i])) && n <= |Text(AllLines(fs))|
    ensures var (c', es) := FeedAll(c, Split(Text(AllLines(fs))[..n]).0);
            es <= Entries(fs) && c'.last == Cursor(c.last, es)
  {
    LinesAreSingle(fs);
    PrefixLines(AllLines(fs), n);
    var lines := Split(Text(AllLines(fs))[..n]).0;
    assert lines == AllLines(fs)[..|lines|];
    StreamPart(c, fs, |lines|);
  }

  lemma {:induction false} SplitText(lines: seq<string>)
    requires forall i :: 0 <= i < |lines| ==> OneLine(lines[i])
    ensures Split(Text(lines)) == (lines, "")
    decreases |lines|
  {
    if lines != [] {
      SplitText(lines[1..]);
      SplitAfter(Text(lines), lines[0], Text(lines[1..]));
      assert lines == [lines[0]] + lines[1..];
    }
  }
}

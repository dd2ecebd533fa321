/** Bus, stream and reconnecting client as one protocol. */
module SseProtocol {
  import opened Optional
  import opened SseHistory
  import opened SseWire
  import Sequences

  /** A live connection: the frames emitted on it, how many characters of their text arrived, and the
      broadcast items not yet emitted. `since` and `before` are the client's cursor and deliveries when it
      connected. */
  datatype Conn = Conn(frames: seq<Frame>, got: nat, queue: seq<Stamped>, since: Option<nat>, before: seq<Entry>)

  datatype State = State(items: seq<Item>, lastId: nat, now: nat, conn: Option<Conn>,
                         client: Client, buf: string, delivered: seq<Entry>)

  /** `Lag(k, payload)`: the receiver lost `k` broadcast items and is told by an id-less baseline. */
  datatype Step =
    | Publish(event: Event) | Pull | Lag(k: nat, payload: string) | Ping
    | Receive(n: nat) | Disconnect | Connect(payload: string)
    | ClearItems | Tick(dt: nat)

  const READY := Data(None, "ready", "{\"status\":\"ok\"}")

  function Sync(payload: string): Frame { Data(None, "sync", payload) }

  function FrameOf(s: Stamped): Frame { Data(Some(s.id), s.event.name, s.event.payload) }

  function FramesOf(ss: seq<Stamped>): seq<Frame> {
    if ss == [] then [] else [FrameOf(ss[0])] + FramesOf(ss[1..])
  }

  function SinceOf(cursor: Option<nat>): nat { if cursor.Some? then cursor.value else 0 }

  function WireText(fs: seq<Frame>): string { Text(AllLines(fs)) }

  predicate Enabled(s: State, a: Step) {
    match a
    case Publish(e) => OneLine(e.name) && OneLine(e.payload) && s.lastId + 1 < U64_LIMIT
    case Pull => s.conn.Some? && s.conn.value.queue != []
    case Lag(k, payload) => s.conn.Some? && 1 <= k <= |s.conn.value.queue| && OneLine(payload)
    case Ping => s.conn.Some?
    case Receive(n) => s.conn.Some? && s.conn.value.got + n <= |WireText(s.conn.value.frames)|
    case Disconnect => s.conn.Some?
    case Connect(payload) => s.conn.None? && OneLine(payload)
    case ClearItems => true
    case Tick(_) => true
  }

  function Emit(s: State, f: Frame, queue: seq<Stamped>): State
    requires s.conn.Some?
  {
    s.(conn := Some(s.conn.value.(frames := s.conn.value.frames + [f], queue := queue)))
  }

  function Next(s: State, a: Step): State
    requires Enabled(s, a)
  {
    match a
    case Publish(e) =>
      var id := s.lastId + 1;
      var t := s.(items := Trim(s.items + [Item(id, s.now, e)]), lastId := id);
      if s.conn.None? then t else t.(conn := Some(s.conn.value.(queue := s.conn.value.queue + [Stamped(id, e)])))
    case Pull => Emit(s, FrameOf(s.conn.value.queue[0]), s.conn.value.queue[1..])
    case Lag(k, payload) => Emit(s, Sync(payload), s.conn.value.queue[k..])
    case Ping => Emit(s, Comment("ping"), s.conn.value.queue)
    case Receive(n) =>
      var c := s.conn.value;
      var text := s.buf + WireText(c.frames)[c.got..c.got + n];
      var (client, es) := FeedAll(s.client, Split(text).0);
      s.(conn := Some(c.(got := c.got + n)), client := client, buf := Split(text).1, delivered := s.delivered + es)
    case Disconnect => s.(conn := None)
    case Connect(payload) =>
      var replay := Replay(s.items, SinceOf(s.client.last), s.now);
      var frames := [READY] + FramesOf(replay) + [Sync(payload)];
      s.(conn := Some(Conn(frames, 0, [], s.client.last, s.delivered)),
         client := Client(None, s.client.last), buf := "")
    case ClearItems => s.(items := [])
    case Tick(dt) => s.(now := s.now + dt)
  }

  // ---- Ids, in order ----

  function IdsOf(es: seq<Entry>): seq<nat> {
    if es == [] then [] else (if es[0].id.Some? then [es[0].id.value] else []) + IdsOf(es[1..])
  }

  lemma {:induction false} IdsConcat(xs: seq<Entry>, ys: seq<Entry>)
    ensures IdsOf(xs + ys) == IdsOf(xs) + IdsOf(ys)
  {
    if xs == [] {
      assert xs + ys == ys;
    } else {
      IdsConcat(xs[1..], ys);
      assert (xs + ys)[0] == xs[0] && (xs + ys)[1..] == xs[1..] + ys;
      var head := if xs[0].id.Some? then [xs[0].id.value] else [];
      assert head + (IdsOf(xs[1..]) + IdsOf(ys)) == (head + IdsOf(xs[1..])) + IdsOf(ys);
    }
  }

  lemma {:induction false} EntriesConcat(fs: seq<Frame>, gs: seq<Frame>)
    ensures Entries(fs + gs) == Entries(fs) + Entries(gs)
  {
    if fs == [] {
      assert fs + gs == gs;
    } else {
      EntriesConcat(fs[1..], gs);
      assert (fs + gs)[0] == fs[0] && (fs + gs)[1..] == fs[1..] + gs;
      Sequences.Join(if fs[0].Data? then [Entry(fs[0].id, fs[0].payload)] else [], Entries(fs[1..]), Entries(gs));
    }
  }

  lemma {:induction false} ReplayIds(ss: seq<Stamped>)
    ensures IdsOf(Entries(FramesOf(ss))) == Ids(ss)
  {
    if ss != [] {
      ReplayIds(ss[1..]);
      var f := FrameOf(ss[0]);
      assert Entries(FramesOf(ss)) == [Entry(f.id, f.payload)] + Entries(FramesOf(ss)[1..]);
      assert Ids(ss) == [ss[0].id] + Ids(ss[1..]);
    }
  }

  lemma {:induction false} CursorIsLastId(last: Option<nat>, es: seq<Entry>)
    ensures Cursor(last, es) == if IdsOf(es) == [] then last else Some(IdsOf(es)[|IdsOf(es)| - 1])
    decreases |es|
  {
    if es != [] {
      CursorIsLastId(if es[0].id.Some? then es[0].id else last, es[1..]);
    }
  }

  /** Every id still to come on a connection: on the frames emitted, then in the queue. */
  function Upcoming(c: Conn): seq<nat> { IdsOf(Entries(c.frames)) + Ids(c.queue) }

  predicate ItemOk(item: Item, now: nat) {
    item.at <= now && OneLine(item.event.name) && OneLine(item.event.payload)
  }

  predicate ItemsOk(items: seq<Item>, now: nat) { forall i :: 0 <= i < |items| ==> ItemOk(items[i], now) }

  predicate QueueOk(q: seq<Stamped>) {
    forall i :: 0 <= i < |q| ==> WellFormed(FrameOf(q[i]))
  }

  predicate FramesOk(fs: seq<Frame>) { forall i :: 0 <= i < |fs| ==> WellFormed(fs[i]) }

  predicate BusOk(s: State) {
    Contiguous(s.items, s.lastId) && ItemsOk(s.items, s.now) && s.lastId < U64_LIMIT
  }

  /** Reading these lines takes a client to `client'`, hands over `es`, and leaves `rest` unread. */
  predicate ReadsTo(lines: seq<string>, rest: string, client: Client, client': Client, buf: string, es: seq<Entry>) {
    rest == buf && FeedAll(client, lines).0 == client' && FeedAll(client, lines).1 == es
  }

  /** Reading `text` on a fresh connection with cursor `since` leaves this client, these left-over bytes, and
      hands over `es`. */
  predicate ReadBy(text: string, since: Option<nat>, client: Client, buf: string, es: seq<Entry>) {
    ReadsTo(Split(text).0, Split(text).1, Client(None, since), client, buf, es)
  }

  /** Reading the first `got` characters of a connection's text takes a client from its cursor to here. */
  predicate HeardTo(text: string, got: nat, since: Option<nat>, before: seq<Entry>, client: Client, buf: string,
                    delivered: seq<Entry>)
  {
    && got <= |text| && since == Cursor(None, before) && before <= delivered
    && ReadBy(text[..got], since, client, buf, delivered[|before|..])
  }

  /** The client is where reading the received characters from a fresh connection would put it. */
  predicate Heard(s: State, c: Conn) {
    && FramesOk(c.frames) && QueueOk(c.queue)
    && HeardTo(WireText(c.frames), c.got, c.since, c.before, s.client, s.buf, s.delivered)
  }

  predicate Between(ids: seq<nat>, lo: nat, hi: nat) { forall i :: 0 <= i < |ids| ==> lo < ids[i] <= hi }

  predicate ConnOrdered(s: State, c: Conn) {
    && Ascending(IdsOf(c.before)) && Between(IdsOf(c.before), 0, s.lastId)
    && Ascending(Upcoming(c)) && Between(Upcoming(c), SinceOf(c.since), s.lastId)
  }

  predicate Inv(s: State) {
    && BusOk(s)
    && (s.conn.Some? ==> Heard(s, s.conn.value) && ConnOrdered(s, s.conn.value))
    && (s.conn.None? ==> s.client.last == Cursor(None, s.delivered)
                         && Ascending(IdsOf(s.delivered)) && Between(IdsOf(s.delivered), 0, s.lastId))
  }

  lemma ReadIsPrefix(fs: seq<Frame>, n: nat, since: Option<nat>, client: Client, buf: string, es: seq<Entry>)
    requires FramesOk(fs) && n <= |WireText(fs)| && ReadBy(WireText(fs)[..n], since, client, buf, es)
    ensures es <= Entries(fs) && client.last == Cursor(since, es)
  {
    PrefixCommitsWhatItDelivers(Client(None, since), fs, n);
  }

  lemma IdsOfPrefix(es: seq<Entry>, all: seq<Entry>)
    requires es <= all
    ensures IdsOf(es) <= IdsOf(all)
  {
    IdsConcat(es, all[|es|..]);
    assert all == es + all[|es|..];
  }

  /** What has been delivered on a connection is its `before` and a prefix of what was coming. */
  lemma DeliveredSoFar(s: State, c: Conn) returns (es: seq<Entry>)
    requires Heard(s, c)
    ensures s.delivered == c.before + es && es <= Entries(c.frames)
    ensures s.client.last == Cursor(None, s.delivered)
    ensures IdsOf(s.delivered) == IdsOf(c.before) + IdsOf(es) && IdsOf(es) <= Upcoming(c)
  {
    es := HeardPrefix(c.frames, c.got, c.since, c.before, s.client, s.buf, s.delivered);
    IdsConcat(c.before, es);
    IdsOfPrefix(es, Entries(c.frames));
  }

  lemma HeardPrefix(fs: seq<Frame>, got: nat, since: Option<nat>, before: seq<Entry>, client: Client, buf: string,
                    delivered: seq<Entry>)
    returns (es: seq<Entry>)
    requires FramesOk(fs) && HeardTo(WireText(fs), got, since, before, client, buf, delivered)
    ensures delivered == before + es && es <= Entries(fs) && client.last == Cursor(None, delivered)
  {
    es := delivered[|before|..];
    ReadIsPrefix(fs, got, since, client, buf, es);
    CursorConcat(None, before, es);
  }

  lemma Joined(xs: seq<nat>, ys: seq<nat>, all: seq<nat>, mid: nat, hi: nat)
    requires Ascending(xs) && Between(xs, 0, mid) && mid <= hi
    requires ys <= all && Ascending(all) && Between(all, mid, hi)
    ensures Ascending(xs + ys) && Between(xs + ys, 0, hi)
  {
    forall i | 0 <= i < |ys| ensures ys[i] == all[i] {
    }
  }

  /** A cursor is no less than any id already delivered, and no more than the last one handed out. */
  lemma CursorBounds(before: seq<Entry>, lastId: nat)
    requires Ascending(IdsOf(before)) && Between(IdsOf(before), 0, lastId)
    ensures Between(IdsOf(before), 0, SinceOf(Cursor(None, before))) && SinceOf(Cursor(None, before)) <= lastId
  {
    CursorIsLastId(None, before);
  }

  lemma OrderedSoFar(s: State)
    requires Inv(s)
    ensures Ascending(IdsOf(s.delivered)) && Between(IdsOf(s.delivered), 0, s.lastId)
    ensures s.client.last == Cursor(None, s.delivered)
  {
    if s.conn.Some? {
      var c := s.conn.value;
      var es := DeliveredSoFar(s, c);
      CursorBounds(c.before, s.lastId);
      Joined(IdsOf(c.before), IdsOf(es), Upcoming(c), SinceOf(c.since), s.lastId);
    }
  }

  // ---- Every step keeps it ----

  lemma TextGrows(fs: seq<Frame>, f: Frame)
    ensures WireText(fs) <= WireText(fs + [f])
  {
    AllLinesConcat(fs, [f]);
    TextConcat(AllLines(fs), AllLines([f]));
  }

  lemma EmitHeard(s: State, f: Frame, queue: seq<Stamped>)
    requires s.conn.Some? && Heard(s, s.conn.value) && WellFormed(f) && QueueOk(queue)
    ensures Heard(Emit(s, f, queue), Emit(s, f, queue).conn.value)
  {
    var c := s.conn.value;
    TextGrows(c.frames, f);
    assert WireText(c.frames + [f])[..c.got] == WireText(c.frames)[..c.got];
  }

  function IdOf(f: Frame): seq<nat> { if f.Data? && f.id.Some? then [f.id.value] else [] }

  lemma IdsOfOne(f: Frame)
    ensures IdsOf(Entries([f])) == IdOf(f)
  {
    EntriesOne(f);
    assert f.Data? ==> [Entry(f.id, f.payload)][1..] == [];
  }

  lemma IdsOfMore(fs: seq<Frame>, f: Frame)
    ensures IdsOf(Entries(fs + [f])) == IdsOf(Entries(fs)) + IdOf(f)
  {
    EntriesConcat(fs, [f]);
    IdsConcat(Entries(fs), Entries([f]));
    IdsOfOne(f);
  }

  lemma EmitUpcoming(c: Conn, f: Frame, queue: seq<Stamped>)
    ensures Upcoming(c.(frames := c.frames + [f], queue := queue)) == IdsOf(Entries(c.frames)) + IdOf(f) + Ids(queue)
  {
    IdsOfMore(c.frames, f);
  }

  /** Reading `chunk` after `text` takes a client to `client'`, leaves `buf'` and hands over `more`. */
  predicate ReadsOn(chunk: string, client: Client, buf: string, client': Client, buf': string, more: seq<Entry>) {
    ReadsTo(Split(buf + chunk).0, Split(buf + chunk).1, client, client', buf', more)
  }

  lemma ReadMore(text: string, chunk: string, since: Option<nat>, client: Client, buf: string, es: seq<Entry>,
                 client': Client, buf': string, more: seq<Entry>)
    requires ReadBy(text, since, client, buf, es) && ReadsOn(chunk, client, buf, client', buf', more)
    ensures ReadBy(text + chunk, since, client', buf', es + more)
  {
    SplitConcat(text, chunk);
    FeedAllConcat(Client(None, since), Split(text).0, Split(buf + chunk).0);
  }

  lemma TakeMore(all: string, got: nat, n: nat)
    requires got + n <= |all|
    ensures all[..got + n] == all[..got] + all[got..got + n]
  {
  }

  lemma HearMore(text: string, got: nat, n: nat, since: Option<nat>, before: seq<Entry>, client: Client, buf: string,
                 delivered: seq<Entry>, client': Client, buf': string, delivered': seq<Entry>, more: seq<Entry>)
    requires HeardTo(text, got, since, before, client, buf, delivered) && got + n <= |text|
    requires ReadsOn(text[got..got + n], client, buf, client', buf', more) && delivered' == delivered + more
    ensures HeardTo(text, got + n, since, before, client', buf', delivered')
  {
    TakeMore(text, got, n);
    ReadMore(text[..got], text[got..got + n], since, client, buf, delivered[|before|..], client', buf', more);
    Sequences.DropAppend(delivered, more, |before|);
    Sequences.PrefixGrows(before, delivered, more);
  }

  lemma ReceiveHeard(s: State, n: nat)
    requires Enabled(s, Receive(n)) && Heard(s, s.conn.value)
    ensures Heard(Next(s, Receive(n)), Next(s, Receive(n)).conn.value)
  {
    var c, t := s.conn.value, Next(s, Receive(n));
    var text := WireText(c.frames);
    var more := FeedAll(s.client, Split(s.buf + text[c.got..c.got + n]).0).1;
    HearMore(text, c.got, n, c.since, c.before, s.client, s.buf, s.delivered, t.client, t.buf, t.delivered, more);
  }

  lemma {:induction false} ReplayQueueOk(items: seq<Item>, since: nat, now: nat, lastId: nat)
    requires ItemsOk(items, now) && lastId < U64_LIMIT
    requires forall i :: 0 <= i < |items| ==> items[i].id <= lastId
    ensures QueueOk(Replay(items, since, now))
  {
    if items != [] {
      ReplayQueueOk(items[1..], since, now, lastId);
    }
  }

  lemma {:induction false} FramesOfOk(ss: seq<Stamped>)
    requires QueueOk(ss)
    ensures FramesOk(FramesOf(ss))
  {
    if ss != [] {
      assert WellFormed(FrameOf(ss[0]));
      assert forall i :: 0 <= i < |ss[1..]| ==> ss[1..][i] == ss[i + 1];
      FramesOfOk(ss[1..]);
    }
  }

  /** The ids coming on a fresh connection are exactly the replayed ones. */
  lemma ConnectUpcoming(s: State, payload: string)
    requires Enabled(s, Connect(payload))
    ensures var c := Next(s, Connect(payload)).conn.value;
            Upcoming(c) == Ids(Replay(s.items, SinceOf(s.client.last), s.now))
  {
    var replay := Replay(s.items, SinceOf(s.client.last), s.now);
    EntriesConcat([READY] + FramesOf(replay), [Sync(payload)]);
    EntriesConcat([READY], FramesOf(replay));
    EntriesOne(READY);
    EntriesOne(Sync(payload));
    var body := Entries(FramesOf(replay));
    IdsConcat(Entries([READY]) + body, Entries([Sync(payload)]));
    IdsConcat(Entries([READY]), body);
    assert Entries([READY])[1..] == [] && Entries([Sync(payload)])[1..] == [];
    ReplayIds(replay);
  }

  lemma ConnectHeard(s: State, payload: string)
    requires Enabled(s, Connect(payload)) && BusOk(s) && s.client.last == Cursor(None, s.delivered)
    ensures Heard(Next(s, Connect(payload)), Next(s, Connect(payload)).conn.value)
  {
    var c := Next(s, Connect(payload)).conn.value;
    var replay := Replay(s.items, SinceOf(s.client.last), s.now);
    ReplayQueueOk(s.items, SinceOf(s.client.last), s.now, s.lastId);
    FramesOfOk(replay);
    assert OneLine(READY.name) && OneLine(READY.payload) && OneLine("sync");
    assert WireText(c.frames)[..0] == "";
    assert s.delivered[|s.delivered|..] == [];
  }

  lemma ConnectStep(s: State, payload: string)
    requires Enabled(s, Connect(payload)) && Inv(s)
    ensures Inv(Next(s, Connect(payload)))
  {
    ConnectHeard(s, payload);
    ConnectUpcoming(s, payload);
    ReplayIsExact(s.items, s.lastId, SinceOf(s.client.last), s.now);
  }

  lemma PublishHeard(s: State, e: Event)
    requires Enabled(s, Publish(e)) && BusOk(s) && s.conn.Some? && Heard(s, s.conn.value)
    ensures Heard(Next(s, Publish(e)), Next(s, Publish(e)).conn.value)
  {
    assert WellFormed(FrameOf(Stamped(s.lastId + 1, e)));
  }

  lemma PublishUpcoming(c: Conn, x: Stamped)
    ensures Upcoming(c.(queue := c.queue + [x])) == Upcoming(c) + [x.id]
  {
    assert Ids(c.queue + [x]) == Ids(c.queue) + [x.id];
  }

  lemma Appended(ids: seq<nat>, lo: nat, id: nat)
    requires Ascending(ids) && Between(ids, lo, id) && lo < id + 1
    ensures Ascending(ids + [id + 1]) && Between(ids + [id + 1], lo, id + 1)
  {
  }

  lemma TrimKeepsOk(items: seq<Item>, x: Item, now: nat)
    requires ItemsOk(items, now) && ItemOk(x, now)
    ensures ItemsOk(Trim(items + [x]), now)
  {
    var all := items + [x];
    var kept := Trim(all);
    forall i | 0 <= i < |kept| ensures ItemOk(kept[i], now) {
      var k := |all| - |kept| + i;
      assert kept[i] == all[k];
      if k < |items| {
        assert all[k] == items[k];
      }
    }
  }

  lemma PublishItems(items: seq<Item>, lastId: nat, now: nat, e: Event)
    requires Contiguous(items, lastId) && ItemsOk(items, now) && OneLine(e.name) && OneLine(e.payload)
    ensures Contiguous(Trim(items + [Item(lastId + 1, now, e)]), lastId + 1)
    ensures ItemsOk(Trim(items + [Item(lastId + 1, now, e)]), now)
  {
    AppendStaysContiguous(items, lastId, e, now);
    TrimKeepsOk(items, Item(lastId + 1, now, e), now);
  }

  lemma Published(s: State, e: Event)
    requires Enabled(s, Publish(e))
    ensures var t := Next(s, Publish(e));
            t.items == Trim(s.items + [Item(s.lastId + 1, s.now, e)]) && t.lastId == s.lastId + 1 && t.now == s.now
  {
  }

  lemma PublishBus(s: State, e: Event)
    requires Enabled(s, Publish(e)) && BusOk(s)
    ensures BusOk(Next(s, Publish(e)))
  {
    Published(s, e);
    PublishItems(s.items, s.lastId, s.now, e);
  }

  lemma PublishOrdered(s: State, e: Event)
    requires Enabled(s, Publish(e)) && s.conn.Some? && ConnOrdered(s, s.conn.value)
    requires s.conn.value.since == Cursor(None, s.conn.value.before)
    ensures ConnOrdered(Next(s, Publish(e)), Next(s, Publish(e)).conn.value)
  {
    var c, t := s.conn.value, Next(s, Publish(e));
    CursorBounds(c.before, s.lastId);
    var ids := Upcoming(c);
    Appended(ids, SinceOf(c.since), s.lastId);
    PublishUpcoming(c, Stamped(s.lastId + 1, e));
    assert Upcoming(t.conn.value) == ids + [s.lastId + 1];
    assert t.conn.value.before == c.before && t.conn.value.since == c.since && t.lastId == s.lastId + 1;
  }

  lemma PublishStep(s: State, e: Event)
    requires Enabled(s, Publish(e)) && Inv(s)
    ensures Inv(Next(s, Publish(e)))
  {
    PublishBus(s, e);
    if s.conn.Some? {
      PublishHeard(s, e);
      PublishOrdered(s, e);
    }
  }

  /** Taking items off the queue, emitting the first of them or a baseline in their place. */
  lemma PullStep(s: State)
    requires Inv(s) && Enabled(s, Pull)
    ensures Inv(Next(s, Pull))
  {
    var c := s.conn.value;
    var f := FrameOf(c.queue[0]);
    EmitHeard(s, f, c.queue[1..]);
    PullUpcoming(c);
  }

  lemma IdsHead(q: seq<Stamped>)
    requires q != []
    ensures Ids(q) == [q[0].id] + Ids(q[1..])
  {
  }

  lemma PullUpcoming(c: Conn)
    requires c.queue != []
    ensures Upcoming(c.(frames := c.frames + [FrameOf(c.queue[0])], queue := c.queue[1..])) == Upcoming(c)
  {
    var x, rest := c.queue[0], c.queue[1..];
    EmitUpcoming(c, FrameOf(x), rest);
    IdsHead(c.queue);
    MiddleJoins(IdsOf(Entries(c.frames)), [x.id], Ids(rest));
  }

  lemma MiddleJoins(xs: seq<nat>, ys: seq<nat>, zs: seq<nat>)
    ensures xs + ys + zs == xs + (ys + zs)
  {
  }

  lemma LagStep(s: State, k: nat, payload: string)
    requires Inv(s) && Enabled(s, Lag(k, payload))
    ensures Inv(Next(s, Lag(k, payload)))
  {
    var c := s.conn.value;
    EmitHeard(s, Sync(payload), c.queue[k..]);
    LagUpcoming(c, k, payload);
    Sublist(IdsOf(Entries(c.frames)), Ids(c.queue), k);
  }

  lemma LagUpcoming(c: Conn, k: nat, payload: string)
    requires k <= |c.queue|
    ensures Upcoming(c.(frames := c.frames + [Sync(payload)], queue := c.queue[k..]))
         == IdsOf(Entries(c.frames)) + Ids(c.queue)[k..]
  {
    EmitUpcoming(c, Sync(payload), c.queue[k..]);
    assert Ids(c.queue[k..]) == Ids(c.queue)[k..];
    assert IdsOf(Entries(c.frames)) + [] == IdsOf(Entries(c.frames));
  }

  lemma Sublist(xs: seq<nat>, ys: seq<nat>, k: nat)
    requires k <= |ys| && Ascending(xs + ys)
    ensures Ascending(xs + ys[k..])
    ensures forall lo, hi :: Between(xs + ys, lo, hi) ==> Between(xs + ys[k..], lo, hi)
  {
    var all, some := xs + ys, xs + ys[k..];
    assert forall i :: 0 <= i < |some| ==> some[i] == all[if i < |xs| then i else i + k];
  }

  lemma PingStep(s: State)
    requires Inv(s) && s.conn.Some?
    ensures Inv(Next(s, Ping))
  {
    var c := s.conn.value;
    EmitHeard(s, Comment("ping"), c.queue);
    EmitUpcoming(c, Comment("ping"), c.queue);
    assert IdsOf(Entries(c.frames)) + [] == IdsOf(Entries(c.frames));
  }

  lemma InvStep(s: State, a: Step)
    requires Enabled(s, a) && Inv(s)
    ensures Inv(Next(s, a))
  {
    match a
    case Publish(e) => PublishStep(s, e);
    case Pull => PullStep(s);
    case Lag(k, payload) => LagStep(s, k, payload);
    case Ping => PingStep(s);
    case Receive(n) => ReceiveHeard(s, n);
    case Disconnect => OrderedSoFar(s);
    case Connect(payload) => ConnectStep(s, payload);
    case ClearItems =>
    case Tick(dt) =>
  }
}

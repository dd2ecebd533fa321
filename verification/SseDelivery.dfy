/** What a client has been handed after any run of the bus, the stream and its own reconnects. */
module SseDelivery {
  import opened Optional
  import opened SseHistory
  import opened SseWire
  import opened SseProtocol
  import Sequences

  const START := State([], 0, 0, Option.None, Client(Option.None, Option.None), "", [])

  predicate IsRun(s: State, steps: seq<Step>)
    decreases |steps|
  {
    steps == [] || (Enabled(s, steps[0]) && IsRun(Next(s, steps[0]), steps[1..]))
  }

  function Final(s: State, steps: seq<Step>): State
    requires IsRun(s, steps)
    decreases |steps|
  {
    if steps == [] then s else Final(Next(s, steps[0]), steps[1..])
  }

  /** The events published by a run, in order; event number `i` gets id `i + 1`. */
  function Log(steps: seq<Step>): seq<Event> {
    if steps == [] then [] else Logged(steps[0]) + Log(steps[1..])
  }

  function Logged(a: Step): seq<Event> { if a.Publish? then [a.event] else [] }

  // ---- Every id comes with its own event ----

  predicate Genuine(id: nat, payload: string, log: seq<Event>) { 1 <= id <= |log| && payload == log[id - 1].payload }

  predicate EntriesGenuine(es: seq<Entry>, log: seq<Event>) {
    forall i :: 0 <= i < |es| && es[i].id.Some? ==> Genuine(es[i].id.value, es[i].payload, log)
  }

  predicate QueueGenuine(q: seq<Stamped>, log: seq<Event>) {
    forall i :: 0 <= i < |q| ==> Genuine(q[i].id, q[i].event.payload, log)
  }

  predicate ItemsGenuine(items: seq<Item>, log: seq<Event>) {
    forall i :: 0 <= i < |items| ==> Genuine(items[i].id, items[i].event.payload, log)
  }

  predicate ConnGenuine(c: Conn, log: seq<Event>) {
    EntriesGenuine(c.before, log) && EntriesGenuine(Entries(c.frames), log) && QueueGenuine(c.queue, log)
  }

  predicate Faithful(s: State, log: seq<Event>) {
    && |log| == s.lastId && ItemsGenuine(s.items, log) && EntriesGenuine(s.delivered, log)
    && (s.conn.Some? ==> ConnGenuine(s.conn.value, log))
  }

  lemma GenuineLonger(s: State, log: seq<Event>, e: Event)
    requires Faithful(s, log)
    ensures ItemsGenuine(s.items, log + [e]) && EntriesGenuine(s.delivered, log + [e])
    ensures s.conn.Some? ==> ConnGenuine(s.conn.value, log + [e])
  {
  }

  lemma TrimGenuine(items: seq<Item>, log: seq<Event>)
    requires ItemsGenuine(items, log)
    ensures ItemsGenuine(Trim(items), log)
  {
    var kept := Trim(items);
    forall i | 0 <= i < |kept| ensures Genuine(kept[i].id, kept[i].event.payload, log) {
      assert kept[i] == items[|items| - |kept| + i];
    }
  }

  lemma PublishFaithful(s: State, log: seq<Event>, e: Event)
    requires Enabled(s, Publish(e)) && Faithful(s, log)
    ensures Faithful(Next(s, Publish(e)), log + [e])
  {
    GenuineLonger(s, log, e);
    TrimGenuine(s.items + [Item(s.lastId + 1, s.now, e)], log + [e]);
  }

  lemma EmitFaithful(s: State, log: seq<Event>, f: Frame, queue: seq<Stamped>)
    requires s.conn.Some? && Faithful(s, log) && QueueGenuine(queue, log)
    requires f.Data? && f.id.Some? ==> Genuine(f.id.value, f.payload, log)
    ensures Faithful(Emit(s, f, queue), log)
  {
    EntriesConcat(s.conn.value.frames, [f]);
    EntriesOne(f);
  }

  lemma {:induction false} ReplayGenuine(items: seq<Item>, since: nat, now: nat, log: seq<Event>)
    requires ItemsGenuine(items, log)
    ensures QueueGenuine(Replay(items, since, now), log)
  {
    if items != [] {
      ReplayGenuine(items[1..], since, now, log);
    }
  }

  lemma {:induction false} FramesGenuine(q: seq<Stamped>, log: seq<Event>)
    requires QueueGenuine(q, log)
    ensures EntriesGenuine(Entries(FramesOf(q)), log)
  {
    if q != [] {
      FramesGenuine(q[1..], log);
      var f := FrameOf(q[0]);
      assert Entries(FramesOf(q)) == [Entry(f.id, f.payload)] + Entries(FramesOf(q[1..])) by {
        assert FramesOf(q)[1..] == FramesOf(q[1..]);
      }
    }
  }

  lemma GenuineConcat(xs: seq<Entry>, ys: seq<Entry>, log: seq<Event>)
    requires EntriesGenuine(xs, log) && EntriesGenuine(ys, log)
    ensures EntriesGenuine(xs + ys, log)
  {
  }

  lemma BaselineGenuine(f: Frame, log: seq<Event>)
    requires f.Data? && f.id.None?
    ensures EntriesGenuine(Entries([f]), log)
  {
    EntriesOne(f);
  }

  lemma StartGenuine(fs: seq<Frame>, first: Frame, last: Frame, log: seq<Event>)
    requires EntriesGenuine(Entries(fs), log)
    requires first.Data? && first.id.None? && last.Data? && last.id.None?
    ensures EntriesGenuine(Entries([first] + fs + [last]), log)
  {
    BaselineGenuine(first, log);
    BaselineGenuine(last, log);
    EntriesConcat([first], fs);
    EntriesConcat([first] + fs, [last]);
    GenuineConcat(Entries([first]), Entries(fs), log);
    GenuineConcat(Entries([first] + fs), Entries([last]), log);
  }

  lemma ConnectFaithful(s: State, log: seq<Event>, payload: string)
    requires Enabled(s, Connect(payload)) && Faithful(s, log)
    ensures Faithful(Next(s, Connect(payload)), log)
  {
    var replay := Replay(s.items, SinceOf(s.client.last), s.now);
    ReplayGenuine(s.items, SinceOf(s.client.last), s.now, log);
    FramesGenuine(replay, log);
    StartGenuine(FramesOf(replay), READY, Sync(payload), log);
  }

  lemma ReceiveFaithful(s: State, log: seq<Event>, n: nat)
    requires Enabled(s, Receive(n)) && Inv(s) && Faithful(s, log)
    ensures Faithful(Next(s, Receive(n)), log)
  {
    var t := Next(s, Receive(n));
    ReceiveHeard(s, n);
    var es := DeliveredSoFar(t, t.conn.value);
    assert forall i :: 0 <= i < |es| ==> es[i] == Entries(t.conn.value.frames)[i];
  }

  lemma FaithfulStep(s: State, log: seq<Event>, a: Step)
    requires Enabled(s, a) && Inv(s) && Faithful(s, log)
    ensures Faithful(Next(s, a), log + Logged(a))
  {
    assert !a.Publish? ==> log + Logged(a) == log;
    match a
    case Publish(e) => PublishFaithful(s, log, e);
    case Pull =>
      var q := s.conn.value.queue;
      assert QueueGenuine(q[1..], log);
      EmitFaithful(s, log, FrameOf(q[0]), q[1..]);
    case Lag(k, payload) =>
      assert QueueGenuine(s.conn.value.queue[k..], log);
      EmitFaithful(s, log, Sync(payload), s.conn.value.queue[k..]);
    case Ping => EmitFaithful(s, log, Comment("ping"), s.conn.value.queue);
    case Receive(n) => ReceiveFaithful(s, log, n);
    case Disconnect =>
    case Connect(payload) => ConnectFaithful(s, log, payload);
    case ClearItems =>
    case Tick(_) =>
  }

  lemma LogHead(log: seq<Event>, steps: seq<Step>)
    requires steps != []
    ensures log + Logged(steps[0]) + Log(steps[1..]) == log + Log(steps)
  {
    Sequences.Join(log, Logged(steps[0]), Log(steps[1..]));
  }

  lemma {:induction false} RunKeeps(s: State, log: seq<Event>, steps: seq<Step>)
    requires IsRun(s, steps) && Inv(s) && Faithful(s, log)
    ensures Inv(Final(s, steps)) && Faithful(Final(s, steps), log + Log(steps))
    decreases |steps|
  {
    if steps == [] {
      assert log + Log(steps) == log;
    } else {
      var t, more := Next(s, steps[0]), log + Logged(steps[0]);
      InvStep(s, steps[0]);
      FaithfulStep(s, log, steps[0]);
      RunKeeps(t, more, steps[1..]);
      LogHead(log, steps);
      assert Final(s, steps) == Final(t, steps[1..]);
    }
  }

  /** The run invariants at the end of a run from the start. */
  lemma Reached(steps: seq<Step>)
    requires IsRun(START, steps)
    ensures Inv(Final(START, steps)) && Faithful(Final(START, steps), Log(steps))
  {
    RunKeeps(START, [], steps);
    assert [] + Log(steps) == Log(steps);
  }

  /** Whatever is published, however the stream is cut up, dropped, lagged, expired or cleared, and however
      often the client reconnects: the ids it is handed strictly increase, each comes with the event that was
      published under it, and the cursor it would resume from is the last of them. */
  lemma IdsIncrease(steps: seq<Step>)
    requires IsRun(START, steps)
    ensures var s := Final(START, steps);
      && Ascending(IdsOf(s.delivered)) && EntriesGenuine(s.delivered, Log(steps))
      && s.client.last == (if IdsOf(s.delivered) == [] then Option.None
                           else Option.Some(IdsOf(s.delivered)[|IdsOf(s.delivered)| - 1]))
  {
    Reached(steps);
    var s := Final(START, steps);
    OrderedSoFar(s);
    CursorIsLastId(Option.None, s.delivered);
  }

  // ---- Nothing lost ----

  /** No lag, and every reconnect finds the item after the cursor still buffered and within its window. */
  predicate Lossless(s: State, a: Step) {
    match a
    case Lag(_, _) => false
    case Connect(_) => Covered(s.items, s.lastId, SinceOf(s.client.last), s.now)
    case _ => true
  }

  predicate LosslessRun(s: State, steps: seq<Step>)
    requires IsRun(s, steps)
    decreases |steps|
  {
    steps == [] || (Lossless(s, steps[0]) && LosslessRun(Next(s, steps[0]), steps[1..]))
  }

  /** Delivered before this connection: everything up to the cursor. Still to come on it: everything after. */
  predicate Whole(s: State) {
    match s.conn
    case None => IdsOf(s.delivered) == Range(0, SinceOf(s.client.last))
    case Some(c) =>
      && IdsOf(c.before) == Range(0, SinceOf(c.since)) && SinceOf(c.since) <= s.lastId
      && Upcoming(c) == Range(SinceOf(c.since), s.lastId)
  }

  /** On a new connection, what is coming continues the cursor without a gap exactly when it is covered. */
  lemma ConnectGapFree(s: State, payload: string)
    requires Enabled(s, Connect(payload)) && Inv(s)
    ensures var since := SinceOf(s.client.last);
      (Upcoming(Next(s, Connect(payload)).conn.value) == Range(since, s.lastId)) <==>
      Covered(s.items, s.lastId, since, s.now)
  {
    ConnectUpcoming(s, payload);
    ReplayIsExact(s.items, s.lastId, SinceOf(s.client.last), s.now);
  }

  /** A run that gets there: what was published is cleared before the client first connects, so nothing of it is
      coming and nothing it has is behind. */
  lemma UncoveredConnect(e: Event, payload: string)
    requires OneLine(e.name) && OneLine(e.payload) && OneLine(payload)
    ensures var steps := [Publish(e), ClearItems, Connect(payload)];
      && IsRun(START, steps) && !LosslessRun(START, steps)
      && var s := Final(START, steps);
         s.lastId == 1 && s.delivered == [] && s.conn.Some? && Upcoming(s.conn.value) == []
  {
    var r := Next(START, Publish(e));
    var s := Next(r, ClearItems);
    assert s.items == [] && s.lastId == 1 && s.client == START.client && s.conn.None?;
    ConnectUpcoming(s, payload);
    assert !Covered(s.items, s.lastId, 0, s.now);
    Head(s, Connect(payload), []);
    Head(r, ClearItems, [Connect(payload)]);
    Head(START, Publish(e), [ClearItems, Connect(payload)]);
    assert [Publish(e)] + [ClearItems, Connect(payload)] == [Publish(e), ClearItems, Connect(payload)];
    assert [ClearItems] + [Connect(payload)] == [ClearItems, Connect(payload)];
    Sequences.Nothing([Connect(payload)]);
  }

  lemma Head(s: State, a: Step, rest: seq<Step>)
    requires Enabled(s, a) && IsRun(Next(s, a), rest)
    ensures IsRun(s, [a] + rest) && Final(s, [a] + rest) == Final(Next(s, a), rest)
    ensures LosslessRun(s, [a] + rest) <==> Lossless(s, a) && LosslessRun(Next(s, a), rest)
  {
    assert ([a] + rest)[1..] == rest;
  }

  lemma RangePrefix(mid: nat, hi: nat, ids: seq<nat>)
    requires mid <= hi && ids <= Range(mid, hi)
    ensures Range(0, mid) + ids == Range(0, mid + |ids|)
  {
    assert forall i :: 0 <= i < |ids| ==> ids[i] == Range(mid, hi)[i];
  }

  lemma LastOfRange(es: seq<Entry>, k: nat)
    requires IdsOf(es) == Range(0, k)
    ensures SinceOf(Cursor(Option.None, es)) == k
  {
    CursorIsLastId(Option.None, es);
  }

  /** The delivered ids are exactly `1, 2, .. cursor`. */
  lemma WholeSoFar(s: State)
    requires Inv(s) && Whole(s)
    ensures IdsOf(s.delivered) == Range(0, SinceOf(s.client.last))
  {
    if s.conn.Some? {
      var c := s.conn.value;
      var es := DeliveredSoFar(s, c);
      RangePrefix(SinceOf(c.since), s.lastId, IdsOf(es));
      LastOfRange(s.delivered, SinceOf(c.since) + |IdsOf(es)|);
    }
  }

  lemma WholePublish(s: State, e: Event)
    requires Enabled(s, Publish(e)) && Whole(s) && s.conn.Some?
    ensures Whole(Next(s, Publish(e)))
  {
    var c := s.conn.value;
    PublishUpcoming(c, Stamped(s.lastId + 1, e));
    var lo := SinceOf(c.since);
    assert Range(lo, s.lastId + 1) == Range(lo, s.lastId) + [s.lastId + 1];
  }

  lemma WholeStep(s: State, a: Step)
    requires Enabled(s, a) && Lossless(s, a) && Inv(s) && Whole(s)
    ensures Whole(Next(s, a))
  {
    match a
    case Publish(e) => if s.conn.Some? { WholePublish(s, e); }
    case Pull => PullUpcoming(s.conn.value);
    case Lag(_, _) =>
    case Ping =>
      var c := s.conn.value;
      EmitUpcoming(c, Comment("ping"), c.queue);
      assert IdsOf(Entries(c.frames)) + [] == IdsOf(Entries(c.frames));
    case Receive(_) =>
    case Disconnect => WholeSoFar(s);
    case Connect(payload) =>
      ConnectGapFree(s, payload);
      CursorBounds(s.delivered, s.lastId);
    case ClearItems =>
    case Tick(_) =>
  }

  lemma {:induction false} LosslessRunKeeps(s: State, steps: seq<Step>)
    requires IsRun(s, steps) && LosslessRun(s, steps) && Inv(s) && Whole(s)
    ensures Inv(Final(s, steps)) && Whole(Final(s, steps))
    decreases |steps|
  {
    if steps != [] {
      InvStep(s, steps[0]);
      WholeStep(s, steps[0]);
      LosslessRunKeeps(Next(s, steps[0]), steps[1..]);
    }
  }

  /** The payloads handed over with an id, in order. */
  function Payloads(es: seq<Entry>): seq<string> {
    if es == [] then [] else (if es[0].id.Some? then [es[0].payload] else []) + Payloads(es[1..])
  }

  lemma {:induction false} PayloadsAre(es: seq<Entry>, log: seq<Event>)
    requires EntriesGenuine(es, log)
    ensures |Payloads(es)| == |IdsOf(es)|
    ensures forall i :: 0 <= i < |Payloads(es)| ==> Genuine(IdsOf(es)[i], Payloads(es)[i], log)
  {
    if es != [] {
      PayloadsAre(es[1..], log);
    }
  }

  /** While no lag, expiry, clearing or eviction past the cursor occurs, the ids handed over are exactly
      consecutive from 1, and the payloads are those of the first events published: none lost, none repeated,
      none out of order, across any number of reconnects. */
  lemma NothingLost(steps: seq<Step>)
    requires IsRun(START, steps) && LosslessRun(START, steps)
    ensures var s := Final(START, steps);
      && IdsOf(s.delivered) == Range(0, SinceOf(s.client.last))
      && |Payloads(s.delivered)| == SinceOf(s.client.last) <= |Log(steps)|
      && forall i :: 0 <= i < |Payloads(s.delivered)| ==> Payloads(s.delivered)[i] == Log(steps)[i].payload
  {
    Reached(steps);
    LosslessRunKeeps(START, steps);
    WholeAndGenuine(Final(START, steps), Log(steps));
  }

  lemma WholeAndGenuine(s: State, log: seq<Event>)
    requires Inv(s) && Whole(s) && Faithful(s, log)
    ensures IdsOf(s.delivered) == Range(0, SinceOf(s.client.last))
    ensures |Payloads(s.delivered)| == SinceOf(s.client.last) <= |log|
    ensures forall i :: 0 <= i < |Payloads(s.delivered)| ==> Payloads(s.delivered)[i] == log[i].payload
  {
    WholeSoFar(s);
    OrderedSoFar(s);
    CursorBounds(s.delivered, s.lastId);
    PayloadsAre(s.delivered, log);
  }

  // ---- Caught up ----

  lemma {:induction false} StreamWhole(c: Client, fs: seq<Frame>)
    requires c.pending.None? && FramesOk(fs)
    ensures FeedAll(c, AllLines(fs)).1 == Entries(fs)
    decreases |fs|
  {
    if fs != [] {
      var whole := Lines(fs[0]);
      FramePart(c, fs[0], |whole|);
      assert whole[..|whole|] == whole;
      EntriesOne(fs[0]);
      FeedAllConcat(c, whole, AllLines(fs[1..]));
      StreamWhole(FeedAll(c, whole).0, fs[1..]);
    }
  }

  /** A client whose connection has nothing left in the queue or on the wire has every event published. */
  lemma CaughtUp(steps: seq<Step>)
    requires IsRun(START, steps) && LosslessRun(START, steps)
    requires var s := Final(START, steps);
      s.conn.Some? && s.conn.value.queue == [] && s.conn.value.got == |WireText(s.conn.value.frames)|
    ensures |Payloads(Final(START, steps).delivered)| == |Log(steps)|
  {
    Reached(steps);
    LosslessRunKeeps(START, steps);
    var s := Final(START, steps);
    AllRead(s, s.conn.value);
    PayloadsAre(s.delivered, Log(steps));
  }

  lemma Recent(all: seq<Entry>, before: seq<Entry>, es: seq<Entry>)
    requires before <= all && all[|before|..] == es
    ensures all == before + es
  {
  }

  lemma AllRead(s: State, c: Conn)
    requires Inv(s) && Whole(s) && s.conn == Option.Some(c)
    requires c.queue == [] && c.got == |WireText(c.frames)|
    ensures IdsOf(s.delivered) == Range(0, s.lastId)
  {
    LinesAreSingle(c.frames);
    SplitText(AllLines(c.frames));
    StreamWhole(Client(Option.None, c.since), c.frames);
    Sequences.TakeAll(WireText(c.frames));
    var es := Entries(c.frames);
    Recent(s.delivered, c.before, es);
    IdsConcat(c.before, es);
    Sequences.Nothing(IdsOf(es));
    RangePrefix(SinceOf(c.since), s.lastId, IdsOf(es));
  }
}

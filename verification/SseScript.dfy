/** What one connection hands to the client, item by item. */
module SseScript {
  import opened Optional
  import opened SseHistory
  import opened SseWire
  import opened SseStandard
  import opened SseProtocol
  import opened SseDelivery
  import Decimal
  import Sequences

  /** The buffered events newer than the cursor and less than ten minutes old, in order. */
  function Replayed(items: seq<Item>, since: nat, now: nat): seq<Frame> {
    if items == [] then []
    else
      var item := items[0];
      (if item.id > since && now - item.at < 600 then [Data(Some(item.id), item.event.name, item.event.payload)]
       else [])
      + Replayed(items[1..], since, now)
  }

  /** What a connection goes on to send, with `queue` waiting for it and `lastId` the last id given: each event it takes
      from the queue, and an id-less baseline for each time it lags. */
  function Live(queue: seq<Stamped>, lastId: nat, steps: seq<Step>): seq<Frame>
    decreases |steps|
  {
    if steps == [] then []
    else
      var rest := steps[1..];
      match steps[0]
      case Publish(e) => Live(queue + [Stamped(lastId + 1, e)], lastId + 1, rest)
      case Pull =>
        if queue == [] then []
        else [Data(Some(queue[0].id), queue[0].event.name, queue[0].event.payload)] + Live(queue[1..], lastId, rest)
      case Lag(k, payload) =>
        if k > |queue| then [] else [Data(None, "sync", payload)] + Live(queue[k..], lastId, rest)
      case _ => Live(queue, lastId, rest)
  }

  predicate OneConnection(steps: seq<Step>) { forall a :: a in steps ==> !a.Connect? && !a.Disconnect? }

  /** A connection opens with its ready item, the replay, and its baseline. */
  function Opening(s: State, payload: string): seq<Frame> {
    [Data(None, "ready", "{\"status\":\"ok\"}")]
    + Replayed(s.items, match s.client.last case None => 0 case Some(id) => id, s.now)
    + [Data(None, "sync", payload)]
  }

  /** The frames that say something: comments are left out. */
  function Spoken(fs: seq<Frame>): seq<Frame> {
    if fs == [] then [] else (if fs[0].Data? then [fs[0]] else []) + Spoken(fs[1..])
  }

  lemma {:induction false} SpokenConcat(fs: seq<Frame>, gs: seq<Frame>)
    ensures Spoken(fs + gs) == Spoken(fs) + Spoken(gs)
  {
    if fs == [] {
      assert fs + gs == gs;
    } else {
      SpokenConcat(fs[1..], gs);
      assert (fs + gs)[0] == fs[0] && (fs + gs)[1..] == fs[1..] + gs;
      Sequences.Join(if fs[0].Data? then [fs[0]] else [], Spoken(fs[1..]), Spoken(gs));
    }
  }

  lemma {:induction false} SpokenEntries(fs: seq<Frame>)
    ensures Entries(Spoken(fs)) == Entries(fs)
  {
    if fs != [] {
      SpokenEntries(fs[1..]);
      if fs[0].Data? {
        assert Spoken(fs)[0] == fs[0] && Spoken(fs)[1..] == Spoken(fs[1..]);
      } else {
        Sequences.Nothing(Spoken(fs[1..]));
        Sequences.Nothing(Entries(fs[1..]));
      }
    }
  }

  lemma {:induction false} SpokenMessages(fs: seq<Frame>, lastId: string)
    ensures Messages(Spoken(fs), lastId) == Messages(fs, lastId)
    decreases |fs|
  {
    if fs != [] {
      var next := if fs[0].Data? && fs[0].id.Some? then Decimal.Render(fs[0].id.value) else lastId;
      SpokenMessages(fs[1..], next);
      if fs[0].Data? {
        assert Spoken(fs)[0] == fs[0] && Spoken(fs)[1..] == Spoken(fs[1..]);
      } else {
        Sequences.Nothing(Spoken(fs[1..]));
      }
    }
  }

  lemma {:induction false} ReplayFrames(items: seq<Item>, since: nat, now: nat)
    ensures Spoken(FramesOf(Replay(items, since, now))) == Replayed(items, since, now)
  {
    if items != [] {
      ReplayFrames(items[1..], since, now);
      var head, rest := Kept(items[0], since, now), Replay(items[1..], since, now);
      FramesConcat(head, rest);
      SpokenConcat(FramesOf(head), FramesOf(rest));
      if head != [] {
        assert FramesOf(head) == [FrameOf(head[0])] + FramesOf(head[1..]) && head[1..] == [];
        SpokenOne(FrameOf(head[0]));
      }
    }
  }

  lemma SpokenOne(f: Frame)
    ensures Spoken([f]) == if f.Data? then [f] else []
  {
    Sequences.Sole(f);
  }

  lemma {:induction false} FramesConcat(xs: seq<Stamped>, ys: seq<Stamped>)
    ensures FramesOf(xs + ys) == FramesOf(xs) + FramesOf(ys)
  {
    if xs == [] {
      assert xs + ys == ys;
    } else {
      FramesConcat(xs[1..], ys);
      assert (xs + ys)[0] == xs[0] && (xs + ys)[1..] == xs[1..] + ys;
      Sequences.Join([FrameOf(xs[0])], FramesOf(xs[1..]), FramesOf(ys));
    }
  }

  lemma ConnectOpens(s: State, payload: string)
    requires Enabled(s, Connect(payload))
    ensures var c := Next(s, Connect(payload)).conn.value;
            Spoken(c.frames) == Opening(s, payload) && c.before == s.delivered && c.queue == []
  {
    var since := SinceOf(s.client.last);
    var replay := FramesOf(Replay(s.items, since, s.now));
    SpokenConcat([READY] + replay, [Sync(payload)]);
    SpokenConcat([READY], replay);
    SpokenOne(READY);
    SpokenOne(Sync(payload));
    ReplayFrames(s.items, since, s.now);
  }

  /** What one step adds to a connection that stays. */
  lemma StepAdds(s: State, a: Step, rest: seq<Step>)
    requires Enabled(s, a) && s.conn.Some? && !a.Connect? && !a.Disconnect?
    ensures var t := Next(s, a);
      && t.conn.Some? && t.conn.value.before == s.conn.value.before
      && Spoken(t.conn.value.frames) + Live(t.conn.value.queue, t.lastId, rest)
         == Spoken(s.conn.value.frames) + Live(s.conn.value.queue, s.lastId, [a] + rest)
  {
    var c := s.conn.value;
    assert ([a] + rest)[1..] == rest;
    match a
    case Pull => EmitAdds(c.frames, FrameOf(c.queue[0]), Live(c.queue[1..], s.lastId, rest));
    case Lag(k, payload) => EmitAdds(c.frames, Sync(payload), Live(c.queue[k..], s.lastId, rest));
    case Ping => EmitAdds(c.frames, Comment("ping"), Live(c.queue, s.lastId, rest));
    case _ =>
  }

  lemma EmitAdds(fs: seq<Frame>, f: Frame, more: seq<Frame>)
    ensures Spoken(fs + [f]) + more == Spoken(fs) + ((if f.Data? then [f] else []) + more)
  {
    SpokenConcat(fs, [f]);
    SpokenOne(f);
    Sequences.Join(Spoken(fs), Spoken([f]), more);
  }

  lemma {:induction false} Along(s: State, steps: seq<Step>)
    requires IsRun(s, steps) && OneConnection(steps) && s.conn.Some?
    ensures var t := Final(s, steps);
      && t.conn.Some? && t.conn.value.before == s.conn.value.before
      && Spoken(t.conn.value.frames) == Spoken(s.conn.value.frames) + Live(s.conn.value.queue, s.lastId, steps)
    decreases |steps|
  {
    if steps == [] {
      Sequences.Nothing(Spoken(s.conn.value.frames));
    } else {
      Sequences.HeadRest(steps);
      StepAdds(s, steps[0], steps[1..]);
      Along(Next(s, steps[0]), steps[1..]);
    }
  }

  lemma {:induction false} InvAlong(s: State, steps: seq<Step>)
    requires IsRun(s, steps) && Inv(s)
    ensures Inv(Final(s, steps))
    decreases |steps|
  {
    if steps != [] {
      InvStep(s, steps[0]);
      InvAlong(Next(s, steps[0]), steps[1..]);
    }
  }

  lemma ReadAllOfIt(s: State, c: Conn)
    requires Inv(s) && s.conn == Option.Some(c) && c.got == |WireText(c.frames)|
    ensures s.delivered == c.before + Entries(c.frames)
  {
    LinesAreSingle(c.frames);
    SplitText(AllLines(c.frames));
    StreamWhole(Client(Option.None, c.since), c.frames);
    Sequences.TakeAll(WireText(c.frames));
    Recent(s.delivered, c.before, Entries(c.frames));
  }

  /** The state after a connect and what follows it on the same connection. */
  ghost predicate Connected(before: seq<Step>, payload: string, after: seq<Step>) {
    && IsRun(START, before) && Enabled(Final(START, before), Connect(payload))
    && IsRun(Next(Final(START, before), Connect(payload)), after) && OneConnection(after)
  }

  function Now(before: seq<Step>, payload: string, after: seq<Step>): State
    requires Connected(before, payload, after)
  {
    Final(Next(Final(START, before), Connect(payload)), after)
  }

  /** Ready, replay, baseline, and the live ones. */
  function Script(before: seq<Step>, payload: string, after: seq<Step>): seq<Frame>
    requires Connected(before, payload, after)
  {
    Opening(Final(START, before), payload) + Live([], Final(START, before).lastId, after)
  }

  lemma ConnectionSpeaks(before: seq<Step>, payload: string, after: seq<Step>)
    requires Connected(before, payload, after)
    ensures var t := Now(before, payload, after);
      && Inv(t) && t.conn.Some? && t.conn.value.before == Final(START, before).delivered
      && Spoken(t.conn.value.frames) == Script(before, payload, after)
  {
    var s := Final(START, before);
    Reached(before);
    InvStep(s, Connect(payload));
    InvAlong(Next(s, Connect(payload)), after);
    ConnectOpens(s, payload);
    Along(Next(s, Connect(payload)), after);
  }

  /** In every run, whatever happened before: from a connect on, and as long as the connection stays, the client is
      handed the ready item, then the events replayed to it, then one id-less item with the baseline of this connect,
      then the live ones, in this order; all of them once it has read everything. */
  lemma ConnectionDelivers(before: seq<Step>, payload: string, after: seq<Step>)
    requires Connected(before, payload, after)
    ensures var was, t := Final(START, before).delivered, Now(before, payload, after);
      && t.conn.Some? && was <= t.delivered
      && t.delivered[|was|..] <= Entries(Script(before, payload, after))
      && (t.conn.value.got == |WireText(t.conn.value.frames)| ==>
            t.delivered == was + Entries(Script(before, payload, after)))
  {
    var t := Now(before, payload, after);
    ConnectionSpeaks(before, payload, after);
    SpokenEntries(t.conn.value.frames);
    var es := DeliveredSoFar(t, t.conn.value);
    if t.conn.value.got == |WireText(t.conn.value.frames)| {
      ReadAllOfIt(t, t.conn.value);
    }
  }

  /** And a standard reader of the characters sent so far makes of them exactly the messages of that script, each with
      its event name. */
  lemma ConnectionReadsAsStandard(before: seq<Step>, payload: string, after: seq<Step>)
    requires Connected(before, payload, after)
    ensures var t := Now(before, payload, after);
      && t.conn.Some?
      && Interpret(Split(WireText(t.conn.value.frames)).0, "", None, "") == Messages(Script(before, payload, after), "")
  {
    ConnectionSpeaks(before, payload, after);
    var fs := Now(before, payload, after).conn.value.frames;
    StreamMeansItsFrames(fs);
    SpokenMessages(fs, "");
  }

  // ---- What the buffer holds ----

  /** How many events were published since the history was last cleared. */
  function SinceClear(steps: seq<Step>): nat {
    if steps == [] then 0
    else
      var n := SinceClear(steps[..|steps| - 1]);
      match steps[|steps| - 1]
      case Publish(_) => n + 1
      case ClearItems => 0
      case _ => n
  }

  lemma {:induction false} RunSnoc(s: State, steps: seq<Step>)
    requires IsRun(s, steps) && steps != []
    ensures var init, last := steps[..|steps| - 1], steps[|steps| - 1];
      IsRun(s, init) && Enabled(Final(s, init), last) && Final(s, steps) == Next(Final(s, init), last)
    decreases |steps|
  {
    if |steps| == 1 {
      assert steps[1..] == [];
    } else {
      RunSnoc(Next(s, steps[0]), steps[1..]);
      assert steps[1..][..|steps| - 2] == steps[..|steps| - 1][1..];
    }
  }

  /** In every run the buffer holds the last thousand events published since it was cleared, or all of them. */
  lemma {:induction false} BufferIsRecent(steps: seq<Step>)
    requires IsRun(START, steps)
    ensures |Final(START, steps).items| == if SinceClear(steps) < 1000 then SinceClear(steps) else 1000
    decreases |steps|
  {
    if steps != [] {
      RunSnoc(START, steps);
      BufferIsRecent(steps[..|steps| - 1]);
    }
  }
}

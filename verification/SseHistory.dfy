/** The replay buffer of the event bus (src/sync/history.rs). */
module SseHistory {
  import Sequences

  /** An event as it goes on the wire: its name and its serialized payload. */
  datatype Event = Event(name: string, payload: string)

  datatype Item = Item(id: nat, at: nat, event: Event)

  datatype Stamped = Stamped(id: nat, event: Event)

  const MAX := 1000
  const TTL := 600

  function Trim(items: seq<Item>): seq<Item> {
    if |items| <= MAX then items else items[|items| - MAX..]
  }

  /** What a replay makes of one item: newer than the cursor and within the window, or nothing. */
  function Kept(item: Item, since: nat, now: nat): seq<Stamped> {
    if item.id > since && now - item.at < TTL then [Stamped(item.id, item.event)] else []
  }

  /** `replay_since`: newer than the cursor and still within the window. */
  function Replay(items: seq<Item>, since: nat, now: nat): seq<Stamped> {
    if items == [] then []
    else
      Kept(items[0], since, now) + Replay(items[1..], since, now)
  }

  lemma ReplayStep(items: seq<Item>, i: nat, since: nat, now: nat)
    requires i < |items|
    ensures Replay(items[i..], since, now) == Kept(items[i], since, now) + Replay(items[i + 1..], since, now)
  {
    Sequences.DropNext(items, i);
  }

  /** Buffered ids are the last `|items|` ids handed out, oldest first, stamped in time order. */
  predicate Contiguous(items: seq<Item>, lastId: nat) {
    && |items| <= MAX && |items| <= lastId
    && (forall i :: 0 <= i < |items| ==> items[i].id == lastId - |items| + 1 + i)
    && (forall i, j :: 0 <= i <= j < |items| ==> items[i].at <= items[j].at)
  }

  class HistoryBuf {
    var items: seq<Item>
    var lastId: nat

    constructor ()
      ensures items == [] && lastId == 0
    {
      items, lastId := [], 0;
    }

    method Append(event: Event, now: nat) returns (id: nat)
      modifies this
      ensures id == lastId == old(lastId) + 1
      ensures items == Trim(old(items) + [Item(id, now, event)])
    {
      lastId := lastId + 1;
      items := items + [Item(lastId, now, event)];
      ghost var full := items;
      ghost var k := 0;
      while |items| > MAX
        invariant 0 <= k <= |full| && items == full[k..] && lastId == old(lastId) + 1
        invariant k > 0 ==> |items| >= MAX
      {
        items := items[1..];
        k := k + 1;
      }
      id := lastId;
    }

    method ClearItems()
      modifies this
      ensures items == [] && lastId == old(lastId)
    {
      items := [];
    }

    method ReplaySince(since: nat, now: nat) returns (out: seq<Stamped>)
      ensures out == Replay(items, since, now)
    {
      out := [];
      for i := 0 to |items|
        invariant out + Replay(items[i..], since, now) == Replay(items, since, now)
      {
        var item := items[i];
        ReplayStep(items, i, since, now);
        Sequences.Join(out, Kept(item, since, now), Replay(items[i + 1..], since, now));
        Sequences.Nothing(out);
        if item.id > since && now - item.at < TTL {
          out := out + [Stamped(item.id, item.event)];
        }
      }
    }
  }

  /** The bus: one history, and one queue per subscriber. Both methods run under the history lock, so a
      publication is either in a new subscriber's replay or in its queue, never in both. */
  class EventBus {
    const history: HistoryBuf
    var queues: seq<seq<Stamped>>

    constructor ()
      ensures fresh(history) && history.items == [] && history.lastId == 0 && queues == []
    {
      history := new HistoryBuf();
      queues := [];
    }

    method Publish(event: Event, now: nat) returns (id: nat)
      modifies this, history
      ensures id == history.lastId == old(history.lastId) + 1
      ensures history.items == Trim(old(history.items) + [Item(id, now, event)])
      ensures |queues| == |old(queues)|
      ensures forall q :: 0 <= q < |queues| ==> queues[q] == old(queues)[q] + [Stamped(id, event)]
    {
      id := history.Append(event, now);
      var before := queues;
      for q := 0 to |before|
        invariant history.lastId == id == old(history.lastId) + 1
        invariant history.items == Trim(old(history.items) + [Item(id, now, event)])
        invariant |queues| == |before|
        invariant forall i :: 0 <= i < q ==> queues[i] == before[i] + [Stamped(id, event)]
        invariant forall i :: q <= i < |before| ==> queues[i] == before[i]
      {
        queues := queues[q := queues[q] + [Stamped(id, event)]];
      }
    }

    method SubscribeWithReplay(since: nat, now: nat) returns (rx: nat, replay: seq<Stamped>)
      modifies this
      ensures rx == |old(queues)| && queues == old(queues) + [[]]
      ensures replay == Replay(history.items, since, now)
    {
      rx := |queues|;
      queues := queues + [[]];
      replay := history.ReplaySince(since, now);
    }
  }

  lemma AppendStaysContiguous(items: seq<Item>, lastId: nat, event: Event, now: nat)
    requires Contiguous(items, lastId)
    requires forall i :: 0 <= i < |items| ==> items[i].at <= now
    ensures Contiguous(Trim(items + [Item(lastId + 1, now, event)]), lastId + 1)
  {
  }

  /** The ids `lo + 1 .. hi`. */
  function Range(lo: nat, hi: nat): (r: seq<nat>)
    ensures |r| == if lo < hi then hi - lo else 0
    ensures forall i :: 0 <= i < |r| ==> r[i] == lo + 1 + i
  {
    if lo < hi then seq(hi - lo, i requires 0 <= i => lo + 1 + i) else []
  }

  function Ids(ss: seq<Stamped>): (r: seq<nat>)
    ensures |r| == |ss| && forall i :: 0 <= i < |ss| ==> r[i] == ss[i].id
  {
    seq(|ss|, i requires 0 <= i < |ss| => ss[i].id)
  }

  /** Can a client that last saw `since` be brought up to date from the buffer? */
  predicate Covered(items: seq<Item>, lastId: nat, since: nat, now: nat) {
    since >= lastId || exists i :: 0 <= i < |items| && items[i].id == since + 1 && now - items[i].at < TTL
  }

  predicate Ascending(ids: seq<nat>) { forall i, j :: 0 <= i < j < |ids| ==> ids[i] < ids[j] }

  /** What a replay is: newer than the cursor, ascending, and a gap-free continuation of the cursor exactly
      when the item after the cursor is still buffered and in its window. */
  lemma ReplayIsExact(items: seq<Item>, lastId: nat, since: nat, now: nat)
    requires Contiguous(items, lastId)
    ensures var ids := Ids(Replay(items, since, now));
      && Ascending(ids)
      && (forall i :: 0 <= i < |ids| ==> since < ids[i] <= lastId)
      && (Covered(items, lastId, since, now) <==> ids == Range(since, lastId))
  {
    var lo := ReplayIsRange(items, lastId, since, now);
    assert Ids(Replay(items, since, now)) == Range(lo, lastId);
  }

  lemma ReplayIsRange(items: seq<Item>, lastId: nat, since: nat, now: nat) returns (lo: nat)
    requires Contiguous(items, lastId)
    ensures Ids(Replay(items, since, now)) == Range(lo, lastId)
    ensures lo < lastId ==> since <= lo
    ensures Covered(items, lastId, since, now) <==> Range(lo, lastId) == Range(since, lastId)
  {
    FirstKept(items, lastId, since, now, 0);
    var n :| 0 <= n <= |items| && Expired(items, since, now, n);
    lo := lastId - |items| + n;
    ReplayFrom(items, since, now, n);
    CoveredFrom(items, lastId, since, now, n);
    var kept := seq(|items| - n, i requires 0 <= i < |items| - n => items[n + i].id);
    assert kept == Range(lo, lastId);
    if n < |items| { assert items[n].id == lo + 1; }
  }

  lemma CoveredFrom(items: seq<Item>, lastId: nat, since: nat, now: nat, n: nat)
    requires Contiguous(items, lastId) && n <= |items| && Expired(items, since, now, n)
    ensures Covered(items, lastId, since, now) <==> Range(lastId - |items| + n, lastId) == Range(since, lastId)
  {
    var lo := lastId - |items| + n;
    if n < |items| {
      assert items[n].id == lo + 1;
      if since < lo {
        assert Range(lo, lastId)[0] == lo + 1 && Range(since, lastId)[0] == since + 1;
      }
    } else if since < lastId {
      assert |Range(since, lastId)| > 0;
    }
  }

  /** `n` splits the buffer: nothing before it is replayed, everything from it on is. */
  predicate Expired(items: seq<Item>, since: nat, now: nat, n: nat)
    requires n <= |items|
  {
    && (forall i :: 0 <= i < n ==> items[i].id <= since || now - items[i].at >= TTL)
    && (forall i :: n <= i < |items| ==> items[i].id > since && now - items[i].at < TTL)
  }

  lemma {:induction false} FirstKept(items: seq<Item>, lastId: nat, since: nat, now: nat, n: nat)
    requires Contiguous(items, lastId) && n <= |items|
    requires forall i :: 0 <= i < n ==> items[i].id <= since || now - items[i].at >= TTL
    ensures exists m :: 0 <= m <= |items| && Expired(items, since, now, m)
    decreases |items| - n
  {
    if n == |items| || (items[n].id > since && now - items[n].at < TTL) {
      assert Expired(items, since, now, n);
    } else {
      FirstKept(items, lastId, since, now, n + 1);
    }
  }

  lemma {:induction false} ReplayFrom(items: seq<Item>, since: nat, now: nat, n: nat)
    requires n <= |items| && Expired(items, since, now, n)
    ensures Ids(Replay(items, since, now)) == seq(|items| - n, i requires 0 <= i < |items| - n => items[n + i].id)
  {
    if items != [] {
      var m := if n == 0 then 0 else n - 1;
      assert Expired(items[1..], since, now, m);
      ReplayFrom(items[1..], since, now, m);
    }
  }
}

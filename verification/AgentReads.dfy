/** Reading a conversation through the agent tool, whose pages are cut a second time by count and by size
    (src/mcp.rs). `size` is the number of characters a projected message takes. */
module AgentReads {
  import opened Cursors
  import opened Optional
  import opened Records
  import opened Pull
  import Sequences

  const TOOL_DEFAULT := 50
  const TOOL_MAX := 200

  function Total(items: seq<Record>, size: Record -> nat): nat {
    if items == [] then 0 else Total(items[..|items| - 1], size) + size(items[|items| - 1])
  }

  lemma TotalStep(items: seq<Record>, size: Record -> nat, i: nat)
    requires i < |items|
    ensures Total(items[..i + 1], size) == Total(items[..i], size) + size(items[i])
  {
    assert items[..i + 1][..i] == items[..i];
  }

  /** The first `maxItems` items, stopped before the one that would go over budget; the first always stays. */
  method ProjectMessages(items: seq<Record>, maxItems: nat, budget: nat, size: Record -> nat)
    returns (out: seq<Record>, truncated: bool)
    ensures out <= items && |out| <= maxItems && (truncated <==> |out| < |items|)
    ensures |out| <= 1 || Total(out, size) <= budget
    ensures |out| < Min(|items|, maxItems) ==> out != [] && Total(items[..|out| + 1], size) > budget
  {
    out := [];
    var used := 0;
    for i := 0 to Min(|items|, maxItems)
      invariant out == items[..i] && used == Total(out, size) && (i <= 1 || used <= budget)
    {
      var n := size(items[i]);
      TotalStep(items, size, i);
      if out != [] && used + n > budget {
        break;
      }
      used := used + n;
      out := out + [items[i]];
    }
    truncated := |out| < |items|;
  }

  datatype Reply = Reply(items: seq<Record>, truncated: bool, hasMore: bool, nextSince: Option<int>, nextOffset: nat)

  /** `get_messages` on one conversation, `since` already resolved to seconds. */
  method GetMessages(msgs: seq<Record>, since: Option<int>, offset: Option<nat>, limit: Option<nat>, budget: nat,
                     size: Record -> nat, now: int, date: Calendar)
    returns (r: Reply)
    requires Dated(msgs) && Usable(since)
    ensures var all, start := Matching(msgs, since, None), if offset.Some? then offset.value else 0;
      && Continues(all, start, r)
      && (r.hasMore ==> start < |all|) && (!r.hasMore && start <= |all| ==> start + |r.items| == |all|)
      && |r.items| <= (match limit case None => 50 case Some(n) => if n < 1 then 1 else if n < 200 then n else 200)
      && (|r.items| <= 1 || Total(r.items, size) <= budget)
    ensures forall m :: m in r.items ==> m in msgs && (since.Some? ==> since.value < m.ts)
  {
    var lim := Clamp(limit, TOOL_DEFAULT, TOOL_MAX);
    var start := if offset.Some? then offset.value else 0;
    var page := PullPage(msgs, since, start, Some(lim), now, date);
    var out, cut := ProjectMessages(page.messages, lim, budget, size);
    r := Reply(out, cut, page.hasMore || cut, if cut then None else Some(page.nextSince),
               if cut then start + |out| else page.nextOffset);
    ReplyContinues(msgs, since, start, lim, page, out, cut);
    PageInRange(msgs, since, None, start, lim, page);
  }

  /** A reply holds the messages from `start` on, at least one if there are any; if there is more, its cursors
      are either the same `since` further on, or the end of a second. */
  ghost predicate Continues(all: seq<Record>, start: nat, r: Reply) {
    && (start >= |all| ==> r.items == [])
    && (start < |all| ==> r.items != [] && start + |r.items| <= |all| && r.items == all[start..start + |r.items|])
    && (r.truncated ==> r.hasMore && r.nextSince.None? && r.nextOffset == start + |r.items|)
    && (r.hasMore && !r.truncated ==>
          var e := start + |r.items|;
          0 < e < |all| && all[e].ts != all[e - 1].ts && r.nextSince == Some(all[e - 1].ts) && r.nextOffset == 0
          && IsCursor(all[e - 1].ts))
  }

  lemma ReplyContinues(msgs: seq<Record>, since: Option<int>, start: nat, lim: nat, page: Page, out: seq<Record>,
                       cut: bool)
    requires Dated(msgs) && lim >= 1 && Serves(Matching(msgs, since, None), start, lim, since, page)
    requires out <= page.messages && (cut <==> |out| < |page.messages|) && (page.messages != [] ==> out != [])
    ensures Continues(Matching(msgs, since, None), start,
                      Reply(out, cut, page.hasMore || cut, if cut then None else Some(page.nextSince),
                            if cut then start + |out| else page.nextOffset))
    ensures var all := Matching(msgs, since, None);
      && (page.hasMore || cut ==> start < |all|)
      && (!page.hasMore && !cut && start <= |all| ==> start + |out| == |all|)
  {
    ReplyItems(Matching(msgs, since, None), start, lim, since, page, out);
    if page.hasMore {
      ReplyCursor(msgs, since, start, lim, page);
    }
  }

  lemma ReplyItems(all: seq<Record>, start: nat, lim: nat, since: Option<int>, page: Page, out: seq<Record>)
    requires lim >= 1 && Serves(all, start, lim, since, page)
    requires out <= page.messages && (page.messages != [] ==> out != [])
    ensures start >= |all| ==> page.messages == []
    ensures start < |all| ==> out != [] && start + |out| <= |all| && out == all[start..start + |out|]
  {
    if start < |all| {
      assert page.messages != [];
      Sequences.PrefixOfSlice(all, start, start + |page.messages|, out);
    }
  }

  lemma ReplyCursor(msgs: seq<Record>, since: Option<int>, start: nat, lim: nat, page: Page)
    requires Dated(msgs) && lim >= 1 && Serves(Matching(msgs, since, None), start, lim, since, page) && page.hasMore
    ensures var all, e := Matching(msgs, since, None), start + |page.messages|;
      && 0 < e < |all| && all[e].ts != all[e - 1].ts && IsCursor(all[e - 1].ts)
      && page.nextSince == all[e - 1].ts && page.nextOffset == 0
  {
    var all, e := Matching(msgs, since, None), start + |page.messages|;
    ResumeAfter(msgs, since, e);
    MatchingSorted(msgs, since, None);
    assert all[e - 1] in all;
  }

  /** An agent that follows the replies: if truncated, the same `since` with `nextOffset`; else `nextSince` with
      the page's offset. `calls` are the limits and budgets of its successive calls. */
  method ReadAll(msgs: seq<Record>, since: Option<int>, calls: seq<(Option<nat>, nat)>, size: Record -> nat,
                 now: int, date: Calendar)
    returns (got: seq<Record>, done: bool)
    requires Dated(msgs) && Usable(since)
    ensures got <= Matching(msgs, since, None)
    ensures done ==> got == Matching(msgs, since, None)
    ensures done ==> IsSorted(got)
    ensures done ==>
              forall m: Record :: multiset(got)[m] == if since.None? || since.value < m.ts then multiset(msgs)[m] else 0
    ensures !done ==> |got| >= |calls|
    ensures |calls| > |Matching(msgs, since, None)| ==> done
  {
    var curSince, offset: nat := since, 0;
    got, done := [], false;
    AllOfThem(msgs, since);
    var k := 0;
    while k < |calls|
      invariant 0 <= k <= |calls| && !done && |got| >= k && Usable(curSince)
      invariant Reading(msgs, since, got, curSince, offset)
    {
      var r := GetMessages(msgs, curSince, Some(offset), calls[k].0, calls[k].1, size, now, date);
      ReadsOn(msgs, since, got, curSince, offset, r);
      got := got + r.items;
      if !r.hasMore {
        done := true;
        return;
      }
      if !r.truncated {
        curSince := r.nextSince;
      }
      offset := r.nextOffset;
      k := k + 1;
    }
  }

  lemma AllOfThem(msgs: seq<Record>, since: Option<int>)
    ensures IsSorted(Matching(msgs, since, None))
    ensures forall m: Record ::
              multiset(Matching(msgs, since, None))[m]
                == if since.None? || since.value < m.ts then multiset(msgs)[m] else 0
  {
    MatchingSorted(msgs, since, None);
    forall m: Record
      ensures multiset(Matching(msgs, since, None))[m]
           == if since.None? || since.value < m.ts then multiset(msgs)[m] else 0
    {
      MatchingCounts(msgs, since, None, m);
    }
  }

  /** What has been read, and what the next call ranges over, make up the whole. */
  ghost predicate Reading(msgs: seq<Record>, since: Option<int>, got: seq<Record>, cursor: Option<int>, offset: nat) {
    && offset <= |Matching(msgs, cursor, None)|
    && Matching(msgs, since, None) == got + Matching(msgs, cursor, None)[offset..]
  }

  lemma ReadsOn(msgs: seq<Record>, since: Option<int>, got: seq<Record>, cursor: Option<int>, offset: nat, r: Reply)
    requires Reading(msgs, since, got, cursor, offset) && Continues(Matching(msgs, cursor, None), offset, r)
    requires r.hasMore ==> offset < |Matching(msgs, cursor, None)|
    requires !r.hasMore ==> offset + |r.items| == |Matching(msgs, cursor, None)|
    ensures r.hasMore ==>
              Reading(msgs, since, got + r.items, if r.truncated then cursor else r.nextSince, r.nextOffset)
    ensures r.hasMore ==> r.items != []
    ensures !r.hasMore ==> got + r.items == Matching(msgs, since, None)
  {
    var rest, e := Matching(msgs, cursor, None), offset + |r.items|;
    assert r.items == rest[offset..e];
    Advance(got, rest, offset, e, r.items);
    if r.hasMore && !r.truncated {
      ResumeAfter(msgs, cursor, e);
      var next := Matching(msgs, r.nextSince, None);
      assert next == rest[e..] && next[0..] == next;
    }
  }

  lemma Advance(got: seq<Record>, rest: seq<Record>, i: nat, j: nat, items: seq<Record>)
    requires i <= j <= |rest| && items == rest[i..j]
    ensures got + rest[i..] == got + items + rest[j..]
    ensures j == |rest| ==> got + rest[i..] == got + items
  {
    assert rest[i..] == rest[i..j] + rest[j..];
  }
}

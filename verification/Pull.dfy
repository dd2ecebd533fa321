/** Cursor pagination: the pull handler (src/server/handlers/chatlab_pull.rs), the client's drain loop
    (clients/rust/src/client.rs). */
module Pull {
  import opened Cursors
  import opened Optional
  import opened Records

  const PAGE_MAX := 5000

  function Clamp(limit: Option<nat>, fallback: nat, max: nat): nat
    requires 1 <= max
  {
    var n := if limit.Some? then limit.value else fallback;
    if n < 1 then 1 else if n > max then max else n
  }

  predicate After(m: Record, since: Option<int>) { since.None? || m.ts > since.value }

  predicate Wanted(m: Record, since: Option<int>, end: Option<int>) {
    After(m, since) && (end.None? || m.ts <= end.value)
  }

  function Select(xs: seq<Record>, since: Option<int>, end: Option<int>): seq<Record> {
    if xs == [] then []
    else (if Wanted(xs[0], since, end) then [xs[0]] else []) + Select(xs[1..], since, end)
  }

  /** The messages a request ranges over, in (ts, rowid) order. */
  function Matching(msgs: seq<Record>, since: Option<int>, end: Option<int>): seq<Record> {
    Select(Sort(msgs), since, end)
  }

  datatype Page = Page(messages: seq<Record>, hasMore: bool, nextSince: int, nextOffset: nat, watermark: int)

  function Min(a: nat, b: nat): nat { if a <= b then a else b }

  /** The least end that leaves at least `limit` messages on the page and does not split a second. */
  predicate EndsPage(all: seq<Record>, start: nat, limit: nat, e: nat) {
    && start <= e <= |all|
    && (e < |all| ==> start < e && e - start >= limit && all[e].ts != all[e - 1].ts)
    && (forall k :: start < k < e && k - start >= limit ==> all[k].ts == all[k - 1].ts)
  }

  /** The page served at `offset`, with the cursors to echo back. */
  predicate Serves(all: seq<Record>, offset: nat, limit: nat, since: Option<int>, p: Page) {
    var start := Min(offset, |all|);
    var e := start + |p.messages|;
    && EndsPage(all, start, limit, e) && p.messages == all[start..e]
    && (p.hasMore <==> e < |all|)
    && p.nextSince == (if p.hasMore then all[e - 1].ts else p.watermark)
    && p.nextOffset == (if p.hasMore && all[e - 1].ts <= (if since.Some? then since.value else I64_MIN) then e else 0)
  }

  /** The page-extension loop. */
  method ExtendPage(all: seq<Record>, start: nat, limit: nat) returns (pageEnd: nat)
    requires start <= |all| && limit >= 1
    ensures EndsPage(all, start, limit, pageEnd)
  {
    pageEnd := start;
    var prevTs := None;
    while pageEnd < |all|
      invariant start <= pageEnd <= |all|
      invariant prevTs == if pageEnd == start then None else Some(all[pageEnd - 1].ts)
      invariant forall k :: start < k < pageEnd && k - start >= limit ==> all[k].ts == all[k - 1].ts
    {
      var ts := all[pageEnd].ts;
      if prevTs.Some? && prevTs.value != ts && pageEnd - start >= limit {
        break;
      }
      prevTs := Some(ts);
      pageEnd := pageEnd + 1;
    }
  }

  method HandlePull(msgs: seq<Record>, since: Option<int>, end: Option<int>, offset: nat, limit: Option<nat>, now: int)
    returns (p: Page)
    ensures Serves(Matching(msgs, since, end), offset, Clamp(limit, PAGE_MAX, PAGE_MAX), since, p)
    ensures p.watermark == if end.Some? then end.value else now
    ensures forall m :: m in p.messages ==>
              m in msgs && (since.Some? ==> since.value < m.ts) && (end.Some? ==> m.ts <= end.value)
    ensures forall i, j :: 0 <= i < j < |p.messages| ==>
              p.messages[i].ts < p.messages[j].ts
              || (p.messages[i].ts == p.messages[j].ts && p.messages[i].rowid <= p.messages[j].rowid)
    ensures offset == 0 && !p.hasMore ==>
              forall m: Record :: (since.Some? ==> since.value < m.ts) && (end.Some? ==> m.ts <= end.value) ==>
                multiset(p.messages)[m] == multiset(msgs)[m]
    ensures offset == 0 && p.hasMore ==>
              forall m: Record :: (since.Some? ==> since.value < m.ts) && m.ts <= p.nextSince ==>
                multiset(p.messages)[m] == multiset(msgs)[m]
    ensures p.hasMore ==>
              && |p.messages| >= 1 && p.nextSince == p.messages[|p.messages| - 1].ts
              && |p.messages| >= (match limit case None => 5000 case Some(n) => if n < 5000 then n else 5000)
              && (exists m :: m in msgs && p.nextSince < m.ts && (end.Some? ==> m.ts <= end.value))
    ensures !p.hasMore ==> p.nextSince == p.watermark
    ensures p.hasMore && since.Some? ==> p.nextOffset == 0
    ensures forall i :: 1 <= i < |p.messages| && p.messages[i].ts != p.messages[i - 1].ts ==>
              i < (match limit case None => 5000 case Some(n) => if n < 1 then 1 else if n < 5000 then n else 5000)
  {
    var watermark := if end.Some? then end.value else now;
    var filtered := Matching(msgs, since, end);
    var total := |filtered|;
    var start := Min(offset, total);
    var pageEnd := ExtendPage(filtered, start, Clamp(limit, PAGE_MAX, PAGE_MAX));
    p := PageOf(filtered, start, pageEnd, since, watermark);
    PageOfServes(filtered, offset, pageEnd, Clamp(limit, PAGE_MAX, PAGE_MAX), since, watermark);
    PageInRange(msgs, since, end, offset, Clamp(limit, PAGE_MAX, PAGE_MAX), p);
    if offset == 0 {
      PageIsAll(msgs, since, end, Clamp(limit, PAGE_MAX, PAGE_MAX), p);
    }
  }

  lemma PageIsLeast(all: seq<Record>, offset: nat, limit: nat, since: Option<int>, p: Page)
    requires Serves(all, offset, limit, since, p)
    ensures forall i :: 1 <= i < |p.messages| && p.messages[i].ts != p.messages[i - 1].ts ==> i < limit
  {
    var start := Min(offset, |all|);
    forall i | 1 <= i < |p.messages| && i >= limit ensures p.messages[i].ts == p.messages[i - 1].ts {
      assert p.messages[i] == all[start + i] && p.messages[i - 1] == all[start + i - 1];
    }
  }

  lemma PageInRange(msgs: seq<Record>, since: Option<int>, end: Option<int>, offset: nat, limit: nat, p: Page)
    requires Serves(Matching(msgs, since, end), offset, limit, since, p) && limit >= 1
    ensures forall m :: m in p.messages ==>
              m in msgs && (since.Some? ==> since.value < m.ts) && (end.Some? ==> m.ts <= end.value)
    ensures IsSorted(p.messages)
    ensures forall i :: 1 <= i < |p.messages| && p.messages[i].ts != p.messages[i - 1].ts ==> i < limit
    ensures p.hasMore && since.Some? ==> p.nextOffset == 0
    ensures p.hasMore ==>
              && |p.messages| >= limit && p.nextSince == p.messages[|p.messages| - 1].ts
              && (exists m :: m in msgs && p.nextSince < m.ts && (end.Some? ==> m.ts <= end.value))
  {
    var all := Matching(msgs, since, end);
    var start := Min(offset, |all|);
    MatchingSorted(msgs, since, end);
    forall i | 0 <= i < |p.messages| ensures p.messages[i] in all {
      assert p.messages[i] == all[start + i];
    }
    PageIsLeast(all, offset, limit, since, p);
    if p.hasMore {
      MoreAhead(msgs, since, end, offset, limit, p);
    }
  }

  lemma MoreAhead(msgs: seq<Record>, since: Option<int>, end: Option<int>, offset: nat, limit: nat, p: Page)
    requires Serves(Matching(msgs, since, end), offset, limit, since, p) && limit >= 1 && p.hasMore
    ensures |p.messages| >= limit && p.nextSince == p.messages[|p.messages| - 1].ts
    ensures exists m :: m in msgs && p.nextSince < m.ts && (end.Some? ==> m.ts <= end.value)
  {
    var all := Matching(msgs, since, end);
    var e := Min(offset, |all|) + |p.messages|;
    MatchingSorted(msgs, since, end);
    assert p.messages[|p.messages| - 1] == all[e - 1];
    CutTimes(all, e);
    assert all[e] in all && all[e - 1] in all;
  }

  /** From the start of the range, a page leaves out nothing before its end. */
  lemma PageIsAll(msgs: seq<Record>, since: Option<int>, end: Option<int>, limit: nat, p: Page)
    requires Serves(Matching(msgs, since, end), 0, limit, since, p) && limit >= 1
    ensures forall m: Record ::
              (since.Some? ==> since.value < m.ts)
              && (if p.hasMore then m.ts <= p.nextSince else end.Some? ==> m.ts <= end.value)
              ==> multiset(p.messages)[m] == multiset(msgs)[m]
  {
    var all, e := Matching(msgs, since, end), |p.messages|;
    assert p.messages == all[..e];
    MatchingSorted(msgs, since, end);
    if p.hasMore {
      CutTimes(all, e);
      assert all[e - 1] in all;
    }
    forall m: Record | (since.Some? ==> since.value < m.ts)
                       && (if p.hasMore then m.ts <= p.nextSince else end.Some? ==> m.ts <= end.value)
      ensures multiset(p.messages)[m] == multiset(msgs)[m]
    {
      MatchingCounts(msgs, since, end, m);
      PrefixCount(all, e, m);
    }
  }

  function PageOf(all: seq<Record>, start: nat, pageEnd: nat, since: Option<int>, watermark: int): Page
    requires start <= pageEnd <= |all|
  {
    var page := all[start..pageEnd];
    var hasMore := pageEnd < |all|;
    var nextSince := if page != [] then page[|page| - 1].ts else if since.Some? then since.value else 0;
    var low := if since.Some? then since.value else I64_MIN;
    Page(page, hasMore, if hasMore then nextSince else watermark,
         if hasMore && nextSince <= low then start + |page| else 0, watermark)
  }

  lemma PageOfServes(all: seq<Record>, offset: nat, e: nat, limit: nat, since: Option<int>, watermark: int)
    requires EndsPage(all, Min(offset, |all|), limit, e)
    ensures Serves(all, offset, limit, since, PageOf(all, Min(offset, |all|), e, since, watermark))
  {
    var start := Min(offset, |all|);
    var page := all[start..e];
    assert |page| == e - start;
    if start < e {
      assert page[|page| - 1] == all[e - 1];
    }
  }

  /** `pull_page`: the cursor goes to the server as text. */
  method PullPage(msgs: seq<Record>, since: Option<int>, offset: nat, limit: Option<nat>, now: int, date: Calendar)
    returns (p: Page)
    requires since.Some? ==> I64_MIN <= since.value <= I64_MAX
    ensures Usable(since) ==> Serves(Matching(msgs, since, None), offset, Clamp(limit, PAGE_MAX, PAGE_MAX), since, p)
  {
    var heard := None;
    if since.Some? {
      CursorSurvives(since.value, date);
      heard := ParseBound(Print(since.value), date);
    }
    p := HandlePull(msgs, heard, None, offset, limit, now);
  }

  // ---- Selecting and cutting ----

  lemma CountCons(x: Record, xs: seq<Record>, m: Record)
    ensures multiset([x] + xs)[m] == (if x == m then 1 else 0) + multiset(xs)[m]
  {
  }

  lemma {:induction false} SelectCounts(xs: seq<Record>, since: Option<int>, end: Option<int>, m: Record)
    ensures multiset(Select(xs, since, end))[m] == if Wanted(m, since, end) then multiset(xs)[m] else 0
  {
    if xs != [] {
      SelectCounts(xs[1..], since, end, m);
      CountCons(xs[0], xs[1..], m);
      assert xs == [xs[0]] + xs[1..];
      var rest := Select(xs[1..], since, end);
      if Wanted(xs[0], since, end) {
        CountCons(xs[0], rest, m);
      } else {
        assert [] + rest == rest;
      }
    }
  }

  lemma {:induction false} SelectSorted(xs: seq<Record>, since: Option<int>, end: Option<int>)
    requires IsSorted(xs)
    ensures IsSorted(Select(xs, since, end))
    ensures forall m :: m in Select(xs, since, end) ==> m in xs && Wanted(m, since, end)
  {
    if xs != [] {
      SelectSorted(xs[1..], since, end);
      var rest := Select(xs[1..], since, end);
      forall i | 0 <= i < |rest| ensures Before(xs[0], rest[i]) {
        assert rest[i] in rest;
        assert rest[i] in xs[1..];
      }
    }
  }

  lemma MatchingCounts(msgs: seq<Record>, since: Option<int>, end: Option<int>, m: Record)
    ensures multiset(Matching(msgs, since, end))[m] == if Wanted(m, since, end) then multiset(msgs)[m] else 0
  {
    SortSorts(msgs);
    SelectCounts(Sort(msgs), since, end, m);
  }

  lemma MatchingSorted(msgs: seq<Record>, since: Option<int>, end: Option<int>)
    ensures IsSorted(Matching(msgs, since, end))
    ensures forall m :: m in Matching(msgs, since, end) ==> m in msgs && Wanted(m, since, end)
  {
    SortSorts(msgs);
    SelectSorted(Sort(msgs), since, end);
    forall m | m in Matching(msgs, since, end) ensures m in msgs {
      assert m in multiset(Sort(msgs));
    }
  }

  /** A larger exclusive lower bound drops exactly a prefix. */
  lemma {:induction false} SelectFurther(xs: seq<Record>, since: Option<int>, hi: int)
    requires IsSorted(xs) && (since.None? || since.value <= hi)
    ensures var all := Select(xs, since, None);
            Select(xs, Some(hi), None) == Select(all, Some(hi), None)
  {
    if xs != [] {
      SelectFurther(xs[1..], since, hi);
      var rest := Select(xs[1..], since, None);
      if Wanted(xs[0], since, None) {
        assert ([xs[0]] + rest)[1..] == rest;
      } else {
        assert [] + rest == rest;
      }
    }
  }

  lemma {:induction false} SelectCut(all: seq<Record>, hi: int, e: nat)
    requires e <= |all|
    requires forall i :: 0 <= i < e ==> all[i].ts <= hi
    requires forall i :: e <= i < |all| ==> all[i].ts > hi
    ensures Select(all, Some(hi), None) == all[e..]
  {
    if all != [] {
      var n := if e == 0 then 0 else e - 1;
      assert forall i :: 0 <= i < |all[1..]| ==> all[1..][i] == all[i + 1];
      SelectCut(all[1..], hi, n);
      assert e == 0 ==> [all[0]] + all[1..] == all;
    }
  }

  /** Where a second ends, resuming after it continues with exactly the rest. */
  lemma ResumeAfter(msgs: seq<Record>, since: Option<int>, e: nat)
    requires var all := Matching(msgs, since, None); 0 < e < |all| && all[e].ts != all[e - 1].ts
    ensures var all := Matching(msgs, since, None);
      && Matching(msgs, Some(all[e - 1].ts), None) == all[e..]
      && (since.Some? ==> since.value < all[e - 1].ts)
  {
    var all := Matching(msgs, since, None);
    var hi := all[e - 1].ts;
    SortSorts(msgs);
    MatchingSorted(msgs, since, None);
    assert all[e - 1] in all;
    CutTimes(all, e);
    SelectFurther(Sort(msgs), since, hi);
    SelectCut(all, hi, e);
  }

  lemma CutTimes(all: seq<Record>, e: nat)
    requires IsSorted(all) && 0 < e < |all| && all[e].ts != all[e - 1].ts
    ensures forall i :: 0 <= i < e ==> all[i].ts <= all[e - 1].ts
    ensures forall i :: e <= i < |all| ==> all[i].ts > all[e - 1].ts
  {
    assert Before(all[e - 1], all[e]);
    forall i | 0 <= i < e ensures all[i].ts <= all[e - 1].ts {
      assert i == e - 1 || Before(all[i], all[e - 1]);
    }
    forall i | e <= i < |all| ensures all[i].ts > all[e - 1].ts {
      assert i == e || Before(all[e], all[i]);
    }
  }

  // ---- Draining a live conversation ----

  /** Every timestamp prints as nine digits or more. */
  ghost predicate Dated(msgs: seq<Record>) { forall m :: m in msgs ==> 100_000_000 <= m.ts <= I64_MAX }

  ghost predicate Growing(snaps: seq<seq<Record>>) {
    && (forall i, j :: 0 <= i <= j < |snaps| ==> multiset(snaps[i]) <= multiset(snaps[j]))
    && (forall i :: 0 <= i < |snaps| ==> Dated(snaps[i]))
  }

  ghost predicate UpTo(m: Record, hi: Option<int>) { hi.Some? && m.ts <= hi.value }

  /** Everything of `msgs` after `since` and up to `hi`, and nothing else, at least as often. */
  ghost predicate Covers(got: seq<Record>, msgs: seq<Record>, since: Option<int>, hi: Option<int>) {
    forall m: Record :: After(m, since) && UpTo(m, hi) ==> multiset(msgs)[m] <= multiset(got)[m]
  }

  ghost predicate Within(got: seq<Record>, since: Option<int>, hi: Option<int>) {
    forall i :: 0 <= i < |got| ==> After(got[i], since) && UpTo(got[i], hi)
  }

  lemma PrefixCount(all: seq<Record>, e: nat, m: Record)
    requires e <= |all|
    ensures multiset(all[..e])[m] <= multiset(all)[m]
    ensures m !in all[e..] ==> multiset(all[..e])[m] == multiset(all)[m]
  {
    assert all == all[..e] + all[e..];
  }

  lemma WindowCounts(msgs: seq<Record>, since: Option<int>, e: nat, m: Record)
    requires var all := Matching(msgs, since, None); 0 < e < |all| && all[e].ts != all[e - 1].ts
    requires After(m, since) && m.ts <= Matching(msgs, since, None)[e - 1].ts
    ensures multiset(Matching(msgs, since, None)[..e])[m] == multiset(msgs)[m]
  {
    var all := Matching(msgs, since, None);
    MatchingSorted(msgs, since, None);
    CutTimes(all, e);
    MatchingCounts(msgs, since, None, m);
    PrefixCount(all, e, m);
  }

  /** A page served from the start of what follows the cursor: its cursor moves on, its messages are exactly
      those of the snapshot in between. */
  lemma PageIsWindow(msgs: seq<Record>, since: Option<int>, limit: nat, p: Page)
    requires limit >= 1 && Dated(msgs) && Serves(Matching(msgs, since, None), 0, limit, since, p) && p.hasMore
    ensures p.nextOffset == 0 && (since.Some? ==> since.value < p.nextSince) && |p.messages| >= limit
    ensures IsCursor(p.nextSince)
    ensures IsSorted(p.messages) && Within(p.messages, since, Some(p.nextSince))
    ensures forall m: Record :: After(m, since) && m.ts <= p.nextSince ==> multiset(p.messages)[m] == multiset(msgs)[m]
  {
    var all, e := Matching(msgs, since, None), |p.messages|;
    assert p.messages == all[..e];
    MatchingSorted(msgs, since, None);
    ResumeAfter(msgs, since, e);
    CutTimes(all, e);
    assert all[e - 1] in all;
    forall i | 0 <= i < e ensures After(p.messages[i], since) {
      assert all[i] in all;
    }
    forall m: Record | After(m, since) && m.ts <= p.nextSince
      ensures multiset(p.messages)[m] == multiset(msgs)[m]
    {
      WindowCounts(msgs, since, e, m);
    }
  }

  lemma LastPage(msgs: seq<Record>, since: Option<int>, limit: nat, p: Page)
    requires Serves(Matching(msgs, since, None), 0, limit, since, p) && !p.hasMore
    ensures p.messages == Matching(msgs, since, None)
  {
    assert p.messages == Matching(msgs, since, None)[0..|p.messages|];
  }

  lemma SortedJoin(got: seq<Record>, more: seq<Record>, mid: Option<int>)
    requires IsSorted(got) && IsSorted(more)
    requires forall i :: 0 <= i < |got| ==> UpTo(got[i], mid)
    requires forall i :: 0 <= i < |more| ==> After(more[i], mid)
    ensures IsSorted(got + more)
  {
  }

  /** Delivered so far, from requests that each saw a snapshot no larger than `last`. */
  ghost predicate Drained(got: seq<Record>, first: seq<Record>, last: seq<Record>, since: Option<int>,
                          cursor: Option<int>)
  {
    && IsSorted(got) && Within(got, since, cursor) && Covers(got, first, since, cursor)
    && multiset(got) <= multiset(last)
  }

  lemma NotBoth(got: seq<Record>, more: seq<Record>, mid: Option<int>, m: Record)
    requires forall i :: 0 <= i < |got| ==> UpTo(got[i], mid)
    requires forall i :: 0 <= i < |more| ==> After(more[i], mid)
    ensures m !in got || m !in more
  {
  }

  lemma StillWithin(got: seq<Record>, most: seq<Record>, msgs: seq<Record>, more: seq<Record>, mid: Option<int>)
    requires multiset(got) <= multiset(most) && multiset(msgs) <= multiset(most) && multiset(more) <= multiset(msgs)
    requires forall i :: 0 <= i < |got| ==> UpTo(got[i], mid)
    requires forall i :: 0 <= i < |more| ==> After(more[i], mid)
    ensures multiset(got + more) <= multiset(most)
  {
    forall m: Record ensures multiset(got + more)[m] <= multiset(most)[m] {
      NotBoth(got, more, mid, m);
      assert multiset(got + more)[m] == multiset(got)[m] + multiset(more)[m];
    }
  }

  lemma PageFromSnapshot(msgs: seq<Record>, since: Option<int>, limit: nat, p: Page)
    requires Serves(Matching(msgs, since, None), 0, limit, since, p)
    ensures multiset(p.messages) <= multiset(msgs)
    ensures forall i :: 0 <= i < |p.messages| ==> After(p.messages[i], since)
  {
    var all, e := Matching(msgs, since, None), |p.messages|;
    MatchingSorted(msgs, since, None);
    assert p.messages == all[..e];
    forall i | 0 <= i < e ensures After(p.messages[i], since) {
      assert p.messages[i] in all;
    }
    forall m: Record ensures multiset(p.messages)[m] <= multiset(msgs)[m] {
      MatchingCounts(msgs, since, None, m);
      PrefixCount(all, e, m);
    }
  }

  ghost predicate Onward(since: Option<int>, cursor: Option<int>) {
    cursor == since || (cursor.Some? && (since.Some? ==> since.value <= cursor.value))
  }

  lemma StillCovers(got: seq<Record>, first: seq<Record>, msgs: seq<Record>, more: seq<Record>,
                    since: Option<int>, cursor: Option<int>, hi: int)
    requires Covers(got, first, since, cursor) && Onward(since, cursor) && multiset(first) <= multiset(msgs)
    requires forall m: Record :: After(m, cursor) && m.ts <= hi ==> multiset(more)[m] == multiset(msgs)[m]
    ensures Covers(got + more, first, since, Some(hi))
  {
    forall m: Record | After(m, since) && UpTo(m, Some(hi))
      ensures multiset(first)[m] <= multiset(got + more)[m]
    {
      assert multiset(got + more)[m] == multiset(got)[m] + multiset(more)[m];
      if !After(m, cursor) {
        assert UpTo(m, cursor);
      }
    }
  }

  lemma StillInside(got: seq<Record>, more: seq<Record>, since: Option<int>, cursor: Option<int>, hi: int)
    requires Within(got, since, cursor) && Within(more, cursor, Some(hi)) && Onward(since, cursor)
    requires cursor.Some? ==> cursor.value < hi
    ensures Within(got + more, since, Some(hi))
  {
  }

  lemma DrainPage(got: seq<Record>, first: seq<Record>, most: seq<Record>, since: Option<int>, cursor: Option<int>,
                  msgs: seq<Record>, p: Page)
    requires Drained(got, first, most, since, cursor) && multiset(first) <= multiset(msgs) <= multiset(most)
    requires Onward(since, cursor) && (cursor == since ==> got == [])
    requires Dated(msgs) && Serves(Matching(msgs, cursor, None), 0, PAGE_MAX, cursor, p) && p.hasMore
    ensures Drained(got + p.messages, first, most, since, Some(p.nextSince))
    ensures Onward(since, Some(p.nextSince)) && since != Some(p.nextSince) && p.nextOffset == 0
    ensures cursor.Some? ==> cursor.value < p.nextSince
    ensures |p.messages| >= PAGE_MAX && IsCursor(p.nextSince)
  {
    PageIsWindow(msgs, cursor, PAGE_MAX, p);
    PageFromSnapshot(msgs, cursor, PAGE_MAX, p);
    SortedJoin(got, p.messages, cursor);
    StillInside(got, p.messages, since, cursor, p.nextSince);
    StillCovers(got, first, msgs, p.messages, since, cursor, p.nextSince);
    StillWithin(got, most, msgs, p.messages, cursor);
  }

  lemma LastCovers(got: seq<Record>, first: seq<Record>, msgs: seq<Record>, more: seq<Record>,
                   since: Option<int>, cursor: Option<int>, m: Record)
    requires Covers(got, first, since, cursor) && multiset(first) <= multiset(msgs) && After(m, since)
    requires multiset(more)[m] == if Wanted(m, cursor, None) then multiset(msgs)[m] else 0
    ensures multiset(first)[m] <= multiset(got + more)[m]
  {
    assert multiset(got + more)[m] == multiset(got)[m] + multiset(more)[m];
    if !After(m, cursor) {
      assert UpTo(m, cursor);
    }
  }

  /** The last page leaves nothing behind: everything there at the start, nothing more often than at the end. */
  lemma DrainLast(got: seq<Record>, first: seq<Record>, most: seq<Record>, since: Option<int>, cursor: Option<int>,
                  msgs: seq<Record>, p: Page)
    requires Drained(got, first, most, since, cursor) && multiset(first) <= multiset(msgs) <= multiset(most)
    requires Onward(since, cursor)
    requires Serves(Matching(msgs, cursor, None), 0, PAGE_MAX, cursor, p) && !p.hasMore
    ensures Delivered(got + p.messages, first, most, since)
  {
    LastPage(msgs, cursor, PAGE_MAX, p);
    PageFromSnapshot(msgs, cursor, PAGE_MAX, p);
    MatchingSorted(msgs, cursor, None);
    SortedJoin(got, p.messages, cursor);
    StillWithin(got, most, msgs, p.messages, cursor);
    forall m: Record | After(m, since) ensures multiset(first)[m] <= multiset(got + p.messages)[m] {
      MatchingCounts(msgs, cursor, None, m);
      LastCovers(got, first, msgs, p.messages, since, cursor, m);
    }
    AllAfter(got, p.messages, since, cursor);
  }

  lemma AllAfter(got: seq<Record>, more: seq<Record>, since: Option<int>, cursor: Option<int>)
    requires Within(got, since, cursor) && Onward(since, cursor)
    requires forall i :: 0 <= i < |more| ==> After(more[i], cursor)
    ensures forall i :: 0 <= i < |got + more| ==> After((got + more)[i], since)
  {
  }

  /** Delivered in order, newer than `since`, no message more often than it is in `most`. */
  ghost predicate Sound(got: seq<Record>, most: seq<Record>, since: Option<int>) {
    IsSorted(got) && multiset(got) <= multiset(most) && forall i :: 0 <= i < |got| ==> After(got[i], since)
  }

  /** What a finished drain delivered: every message of the first snapshot, too, as often as it was there. */
  ghost predicate Delivered(got: seq<Record>, first: seq<Record>, most: seq<Record>, since: Option<int>) {
    Sound(got, most, since) && forall m: Record :: After(m, since) ==> multiset(first)[m] <= multiset(got)[m]
  }

  /** Strictly advancing cursors. */
  ghost predicate Advancing(cursors: seq<int>, since: Option<int>) {
    && (forall i, j :: 0 <= i < j < |cursors| ==> cursors[i] < cursors[j])
    && (since.Some? ==> forall i :: 0 <= i < |cursors| ==> since.value < cursors[i])
  }

  function LastCursor(cursors: seq<int>, since: Option<int>): Option<int> {
    if cursors == [] then since else Some(cursors[|cursors| - 1])
  }

  lemma StillAdvancing(cursors: seq<int>, since: Option<int>, next: int)
    requires Advancing(cursors, since)
    requires LastCursor(cursors, since).Some? ==> LastCursor(cursors, since).value < next
    ensures Advancing(cursors + [next], since) && LastCursor(cursors + [next], since) == Some(next)
  {
  }

  /** Before request `|cursors|`: what has been delivered, and the cursor to send. */
  ghost predicate Draining(got: seq<Record>, cursors: seq<int>, snaps: seq<seq<Record>>, since: Option<int>)
    requires snaps != []
  {
    var cursor := LastCursor(cursors, since);
    && Drained(got, snaps[0], snaps[|snaps| - 1], since, cursor) && Onward(since, cursor) && Usable(cursor)
    && (cursor == since ==> got == []) && Advancing(cursors, since)
  }

  lemma DrainNext(got: seq<Record>, cursors: seq<int>, snaps: seq<seq<Record>>, since: Option<int>, k: nat, p: Page)
    requires Growing(snaps) && k < |snaps| && Draining(got, cursors, snaps, since)
    requires var c := LastCursor(cursors, since);
      Serves(Matching(snaps[k], c, None), 0, PAGE_MAX, c, p)
    ensures p.hasMore ==> Draining(got + p.messages, cursors + [p.nextSince], snaps, since)
    ensures p.hasMore ==> LastCursor(cursors + [p.nextSince], since) == Some(p.nextSince)
    ensures p.hasMore ==> p.nextOffset == 0 && |p.messages| >= PAGE_MAX
    ensures !p.hasMore ==> Delivered(got + p.messages, snaps[0], snaps[|snaps| - 1], since)
  {
    var cursor, first, most := LastCursor(cursors, since), snaps[0], snaps[|snaps| - 1];
    if p.hasMore {
      DrainPage(got, first, most, since, cursor, snaps[k], p);
      StillAdvancing(cursors, since, p.nextSince);
    } else {
      DrainLast(got, first, most, since, cursor, snaps[k], p);
    }
  }

  lemma DrainingIsSound(got: seq<Record>, cursors: seq<int>, snaps: seq<seq<Record>>, since: Option<int>)
    requires snaps != [] && Draining(got, cursors, snaps, since)
    ensures Sound(got, snaps[|snaps| - 1], since) && |got| <= |snaps[|snaps| - 1]|
  {
    NoLarger(got, snaps[|snaps| - 1]);
    AllAfter(got, [], since, LastCursor(cursors, since));
    assert got + [] == got;
  }

  /** The drain loop. `snaps[k]` is the conversation as request `k` finds it, at time `clock[k]`; it may grow
      anywhere between requests. `done` says that the server reported no more. */
  method DrainSession(snaps: seq<seq<Record>>, clock: seq<int>, since: Option<int>, date: Calendar)
    returns (got: seq<Record>, cursors: seq<int>, done: bool)
    requires Growing(snaps) && |clock| == |snaps| > 0 && Usable(since)
    ensures Sound(got, snaps[|snaps| - 1], since) && Advancing(cursors, since)
    ensures done ==> Delivered(got, snaps[0], snaps[|snaps| - 1], since)
    ensures PAGE_MAX * |snaps| > |snaps[|snaps| - 1]| ==> done
  {
    var nextSince, nextOffset := since, 0;
    got, cursors, done := [], [], false;
    var k := 0;
    while k < |snaps|
      invariant 0 <= k <= |snaps| && nextOffset == 0 && !done
      invariant Draining(got, cursors, snaps, since) && nextSince == LastCursor(cursors, since)
      invariant |got| >= PAGE_MAX * k
    {
      var page := PullPage(snaps[k], nextSince, nextOffset, None, clock[k], date);
      DrainNext(got, cursors, snaps, since, k, page);
      got := got + page.messages;
      if !page.hasMore {
        done := true;
        return;
      }
      cursors := cursors + [page.nextSince];
      nextSince, nextOffset := Some(page.nextSince), page.nextOffset;
      k := k + 1;
    }
    DrainingIsSound(got, cursors, snaps, since);
  }

  lemma NoLarger(xs: seq<Record>, ys: seq<Record>)
    requires multiset(xs) <= multiset(ys)
    ensures |xs| <= |ys|
  {
    assert multiset(ys) == multiset(xs) + (multiset(ys) - multiset(xs));
    assert |multiset(xs)| == |xs| && |multiset(ys)| == |ys|;
  }

  /** Over a conversation that does not change, a finished drain delivered exactly the sorted rest. */
  lemma FixedDrain(got: seq<Record>, msgs: seq<Record>, since: Option<int>)
    requires Delivered(got, msgs, msgs, since) && DistinctRowids(msgs)
    ensures got == Matching(msgs, since, None)
  {
    var all := Matching(msgs, since, None);
    MatchingSorted(msgs, since, None);
    forall m: Record ensures multiset(got)[m] == multiset(all)[m] {
      MatchingCounts(msgs, since, None, m);
      if m in multiset(got) {
        assert m in got;
      }
    }
    SelectDistinct(Sort(msgs), since) by { SortSorts(msgs); DistinctSorted(msgs, Sort(msgs)); }
    SortedUnique(all, got);
  }

  lemma {:induction false} SelectDistinct(xs: seq<Record>, since: Option<int>)
    requires DistinctRowids(xs)
    ensures DistinctRowids(Select(xs, since, None))
    ensures forall m :: m in Select(xs, since, None) ==> m in xs
  {
    if xs != [] {
      SelectDistinct(xs[1..], since);
      var rest := Select(xs[1..], since, None);
      forall m | m in rest ensures m.rowid != xs[0].rowid {
        assert m in xs[1..];
      }
    }
  }
}

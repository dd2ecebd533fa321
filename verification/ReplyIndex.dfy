/** Resolving a reply to the message it answers (src/store/query.rs). */
module ReplyIndex {
  import opened Optional
  import opened Records

  type InnerIndex = map<int, seq<(int, int)>>

  /** Every (ts, seq) that carries an inner number, in conversation order. */
  function Carriers(msgs: seq<Record>, k: int): seq<(int, int)> {
    if msgs == [] then []
    else Carriers(msgs[..|msgs| - 1], k)
         + (if msgs[|msgs| - 1].inner == Some(k) then [(msgs[|msgs| - 1].ts, msgs[|msgs| - 1].seqNo)] else [])
  }

  predicate Indexes(ix: InnerIndex, msgs: seq<Record>) {
    && (forall k :: k in ix ==> ix[k] == Carriers(msgs, k))
    && (forall i :: 0 <= i < |msgs| && msgs[i].inner.Some? ==> msgs[i].inner.value in ix)
  }

  function Added(ix: InnerIndex, r: Record): InnerIndex {
    if r.inner.None? then ix
    else
      var k := r.inner.value;
      ix[k := (if k in ix then ix[k] else []) + [(r.ts, r.seqNo)]]
  }

  lemma AddedIndexes(ix: InnerIndex, msgs: seq<Record>, i: nat)
    requires i < |msgs| && Indexes(ix, msgs[..i])
    ensures Indexes(Added(ix, msgs[i]), msgs[..i + 1])
  {
    var init, more := msgs[..i], msgs[..i + 1];
    assert more[..i] == init;
    var next := Added(ix, msgs[i]);
    forall k | k in next ensures next[k] == Carriers(more, k) {
      if k !in ix {
        NoCarrier(init, k);
      }
    }
    forall j | 0 <= j < |more| && more[j].inner.Some? ensures more[j].inner.value in next {
      assert j < i ==> more[j] == init[j];
    }
  }

  method BuildInnerIndex(msgs: seq<Record>) returns (ix: Option<InnerIndex>)
    ensures ix.None? <==> forall i :: 0 <= i < |msgs| ==> msgs[i].reply.None?
    ensures ix.Some? ==> Indexes(ix.value, msgs)
  {
    var replies := false;
    for i := 0 to |msgs|
      invariant replies <==> exists j :: 0 <= j < i && msgs[j].reply.Some?
    {
      if msgs[i].reply.Some? {
        replies := true;
      }
    }
    if !replies {
      return None;
    }
    var m: InnerIndex := map[];
    for i := 0 to |msgs|
      invariant Indexes(m, msgs[..i])
    {
      AddedIndexes(m, msgs, i);
      if msgs[i].inner.Some? {
        var k := msgs[i].inner.value;
        m := m[k := (if k in m then m[k] else []) + [(msgs[i].ts, msgs[i].seqNo)]];
      }
    }
    assert msgs[..|msgs|] == msgs;
    return Some(m);
  }

  lemma {:induction false} NoCarrier(msgs: seq<Record>, k: int)
    ensures Carriers(msgs, k) == [] <==> forall i :: 0 <= i < |msgs| ==> msgs[i].inner != Some(k)
  {
    if msgs != [] {
      var init := msgs[..|msgs| - 1];
      NoCarrier(init, k);
      assert forall i :: 0 <= i < |init| ==> init[i] == msgs[i];
    }
  }

  /** The sequence numbers of the candidates no newer than `ts`. */
  function Eligible(cs: seq<(int, int)>, ts: int): seq<int> {
    if cs == [] then [] else Eligible(cs[..|cs| - 1], ts) + (if cs[|cs| - 1].0 <= ts then [cs[|cs| - 1].1] else [])
  }

  lemma {:induction false} EligiblePrefix(cs: seq<(int, int)>, i: nat, ts: int)
    requires i <= |cs|
    ensures Eligible(cs[..i], ts) <= Eligible(cs, ts)
    decreases |cs| - i
  {
    if i == |cs| {
      assert cs[..i] == cs;
    } else {
      EligiblePrefix(cs, i + 1, ts);
      assert cs[..i + 1][..i] == cs[..i];
    }
  }

  lemma EligibleNext(cs: seq<(int, int)>, i: nat, ts: int)
    requires i < |cs|
    ensures Eligible(cs[..i + 1], ts) == Eligible(cs[..i], ts) + (if cs[i].0 <= ts then [cs[i].1] else [])
  {
    assert cs[..i + 1][..i] == cs[..i];
  }

  method ResolveReplyTo(ix: InnerIndex, m: Record) returns (hit: Option<int>)
    ensures m.reply.None? || m.reply.value !in ix ==> hit == None
    ensures m.reply.Some? && m.reply.value in ix ==>
              var seqs := Eligible(ix[m.reply.value], m.ts);
              hit == if |seqs| == 1 then Some(seqs[0]) else None
  {
    if m.reply.None? || m.reply.value !in ix {
      return None;
    }
    var cs := ix[m.reply.value];
    hit := None;
    for i := 0 to |cs|
      invariant Eligible(cs[..i], m.ts) == if hit.None? then [] else [hit.value]
    {
      EligibleNext(cs, i, m.ts);
      if cs[i].0 > m.ts {
        continue;
      }
      if hit.Some? {
        EligiblePrefix(cs, i + 1, m.ts);
        return None;
      }
      hit := Some(cs[i].1);
    }
    assert cs[..|cs|] == cs;
  }

  /** Message `i` could be what `m` answers: it carries the wanted number and is not newer. */
  predicate IsTarget(msgs: seq<Record>, m: Record, i: nat) {
    i < |msgs| && m.reply.Some? && msgs[i].inner == m.reply && msgs[i].ts <= m.ts
  }

  ghost predicate OnlyTarget(msgs: seq<Record>, m: Record, i: nat) {
    IsTarget(msgs, m, i) && forall j: nat :: IsTarget(msgs, m, j) ==> j == i
  }

  lemma {:induction false} NoTarget(msgs: seq<Record>, m: Record)
    requires m.reply.Some?
    ensures Eligible(Carriers(msgs, m.reply.value), m.ts) == [] <==> forall i: nat :: !IsTarget(msgs, m, i)
  {
    if msgs != [] {
      var init, last := msgs[..|msgs| - 1], msgs[|msgs| - 1];
      NoTarget(init, m);
      EligibleLast(msgs, m);
      assert forall i: nat :: i < |init| ==> (IsTarget(init, m, i) <==> IsTarget(msgs, m, i));
      assert IsTarget(msgs, m, |init|) <==> last.inner == m.reply && last.ts <= m.ts;
    }
  }

  lemma EligibleLast(msgs: seq<Record>, m: Record)
    requires m.reply.Some? && msgs != []
    ensures Eligible(Carriers(msgs, m.reply.value), m.ts)
         == Eligible(Carriers(msgs[..|msgs| - 1], m.reply.value), m.ts)
            + (if IsTarget(msgs, m, |msgs| - 1) then [msgs[|msgs| - 1].seqNo] else [])
  {
    var k, last := m.reply.value, msgs[|msgs| - 1];
    var cs := Carriers(msgs[..|msgs| - 1], k);
    if last.inner == Some(k) {
      assert (cs + [(last.ts, last.seqNo)])[..|cs|] == cs;
    } else {
      assert cs + [] == cs;
    }
  }

  lemma {:induction false} OneTarget(msgs: seq<Record>, m: Record) returns (i: nat)
    requires m.reply.Some? && |Eligible(Carriers(msgs, m.reply.value), m.ts)| == 1
    ensures OnlyTarget(msgs, m, i) && msgs[i].seqNo == Eligible(Carriers(msgs, m.reply.value), m.ts)[0]
  {
    var init := msgs[..|msgs| - 1];
    EligibleLast(msgs, m);
    NoTarget(init, m);
    assert forall j: nat :: j < |init| ==> (IsTarget(init, m, j) <==> IsTarget(msgs, m, j));
    if IsTarget(msgs, m, |msgs| - 1) {
      i := |msgs| - 1;
      forall j: nat | IsTarget(msgs, m, j) ensures j == i {
        assert j < |init| ==> IsTarget(init, m, j);
      }
    } else {
      i := OneTarget(init, m);
    }
  }

  lemma {:induction false} UniqueIsOne(msgs: seq<Record>, m: Record, i: nat)
    requires OnlyTarget(msgs, m, i)
    ensures |Eligible(Carriers(msgs, m.reply.value), m.ts)| == 1
  {
    var init := msgs[..|msgs| - 1];
    EligibleLast(msgs, m);
    assert forall j: nat :: j < |init| ==> (IsTarget(init, m, j) <==> IsTarget(msgs, m, j));
    if i == |init| {
      NoTarget(init, m);
    } else {
      assert OnlyTarget(init, m, i);
      UniqueIsOne(init, m, i);
      assert !IsTarget(msgs, m, |init|);
    }
  }

  /** For every message of a conversation: an answer is given exactly when one and only one message carries the
      wanted number and is not newer, and it is that message's. */
  method ResolveIn(msgs: seq<Record>, m: Record) returns (hit: Option<int>)
    requires m in msgs
    ensures hit.Some? <==> exists i: nat :: OnlyTarget(msgs, m, i)
    ensures forall i: nat :: OnlyTarget(msgs, m, i) ==> hit == Some(msgs[i].seqNo)
  {
    var ix := BuildInnerIndex(msgs);
    if ix.None? {
      assert m.reply.None?;
      return None;
    }
    hit := ResolveReplyTo(ix.value, m);
    if m.reply.Some? {
      ghost var k := m.reply.value;
      NoCarrier(msgs, k);
      if k in ix.value && |Eligible(Carriers(msgs, k), m.ts)| == 1 {
        ghost var i := OneTarget(msgs, m);
      }
      forall i: nat | OnlyTarget(msgs, m, i) ensures k in ix.value && hit == Some(msgs[i].seqNo) {
        UniqueIsOne(msgs, m, i);
        ghost var j := OneTarget(msgs, m);
      }
    }
  }
}

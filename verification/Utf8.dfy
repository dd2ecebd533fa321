/** UTF-8 as byte strings (RFC 3629, section 4), and the lossy reading of arbitrary bytes: each maximal piece that
    begins a character and is cut short, and each byte that begins none, becomes one replacement character. */
module Utf8 {
  import opened Octets
  import Sequences

  const REPLACEMENT: Bytes := [0xEF, 0xBF, 0xBD]

  predicate IsTail(b: Byte) { 0x80 <= b <= 0xBF }

  /** How long a character with this first byte is; 0 if there is none. */
  function Width(b: Byte): nat {
    if b < 0x80 then 1
    else if 0xC2 <= b <= 0xDF then 2
    else if 0xE0 <= b <= 0xEF then 3
    else if 0xF0 <= b <= 0xF4 then 4
    else 0
  }

  predicate SecondFits(b: Byte, c: Byte) {
    IsTail(c)
    && (b == 0xE0 ==> c >= 0xA0) && (b == 0xED ==> c <= 0x9F)
    && (b == 0xF0 ==> c >= 0x90) && (b == 0xF4 ==> c <= 0x8F)
  }

  /** How many bytes the reader takes for one character, whole or cut short. */
  function Taken(s: Bytes): (n: nat)
    requires s != []
    ensures 1 <= n <= |s| && (Width(s[0]) > 0 ==> n <= Width(s[0]))
  {
    var w := Width(s[0]);
    if w < 2 || |s| < 2 || !SecondFits(s[0], s[1]) then 1
    else if w == 2 || |s| < 3 || !IsTail(s[2]) then 2
    else if w == 3 || |s| < 4 || !IsTail(s[3]) then 3
    else 4
  }

  predicate StartsWithChar(s: Bytes) { s != [] && Taken(s) == Width(s[0]) }

  predicate IsUtf8(s: Bytes) { s == [] || (StartsWithChar(s) && IsUtf8(s[Taken(s)..])) }

  /** What the first piece is read as. */
  function First(s: Bytes): (r: Bytes)
    requires s != []
    ensures r != [] && |r| == Width(r[0]) && !IsTail(r[0]) && forall k :: 0 < k < |r| ==> IsTail(r[k])
  {
    if StartsWithChar(s) then s[..Taken(s)] else REPLACEMENT
  }

  /** `String::from_utf8_lossy`. */
  function Lossy(s: Bytes): Bytes {
    if s == [] then [] else First(s) + Lossy(s[Taken(s)..])
  }

  /** What is taken first does not depend on what follows, unless that goes on with a tail byte. */
  lemma TakenFirst(p: Bytes, rest: Bytes)
    requires p != [] && (rest != [] ==> !IsTail(rest[0]) || StartsWithChar(p))
    ensures Taken(p + rest) == Taken(p) && (StartsWithChar(p + rest) <==> StartsWithChar(p))
    ensures (p + rest)[..Taken(p)] == p[..Taken(p)] && (p + rest)[Taken(p)..] == p[Taken(p)..] + rest
  {
    var all := p + rest;
    assert all[0] == p[0];
    assert forall i :: 0 <= i < |p| ==> all[i] == p[i];
    assert rest != [] ==> all[|p|] == rest[0];
  }

  lemma {:induction false} LossySplits(p: Bytes, rest: Bytes)
    requires rest != [] ==> !IsTail(rest[0])
    ensures Lossy(p + rest) == Lossy(p) + Lossy(rest)
    decreases |p|
  {
    if p == [] {
      assert p + rest == rest && [] + Lossy(rest) == Lossy(rest);
    } else {
      TakenFirst(p, rest);
      LossySplits(p[Taken(p)..], rest);
      Sequences.Join(First(p), Lossy(p[Taken(p)..]), Lossy(rest));
    }
  }

  lemma {:induction false} TextFirst(text: Bytes, rest: Bytes)
    requires IsUtf8(text)
    ensures Lossy(text + rest) == text + Lossy(rest)
    decreases |text|
  {
    if text == [] {
      assert text + rest == rest && [] + Lossy(rest) == Lossy(rest);
    } else {
      TakenFirst(text, rest);
      TextFirst(text[Taken(text)..], rest);
      Sequences.Join(text[..Taken(text)], text[Taken(text)..], Lossy(rest));
      assert text == text[..Taken(text)] + text[Taken(text)..];
    }
  }

  /** Whatever stands around it, text survives the lossy reading byte for byte. */
  lemma LossyKeepsText(before: Bytes, text: Bytes, after: Bytes)
    requires text != [] && IsUtf8(text)
    ensures Lossy(before + text + after) == Lossy(before) + text + Lossy(after)
  {
    assert !IsTail((text + after)[0]);
    LossySplits(before, text + after);
    TextFirst(text, after);
    Sequences.Join(before, text, after);
    Sequences.Join(Lossy(before), text, Lossy(after));
  }

  /** Text is read as it is, and what is read is text. */
  lemma LossyOfText(s: Bytes)
    requires IsUtf8(s)
    ensures Lossy(s) == s
  {
    TextFirst(s, []);
    assert s + [] == s && Lossy([]) == [];
  }

  lemma {:induction false} TextJoins(a: Bytes, b: Bytes)
    requires IsUtf8(a) && IsUtf8(b)
    ensures IsUtf8(a + b)
    decreases |a|
  {
    if a == [] {
      assert a + b == b;
    } else {
      TakenFirst(a, b);
      TextJoins(a[Taken(a)..], b);
    }
  }

  lemma {:induction false} LossyIsText(s: Bytes)
    ensures IsUtf8(Lossy(s))
  {
    if s != [] {
      LossyIsText(s[Taken(s)..]);
      if StartsWithChar(s) {
        var c := s[..Taken(s)];
        assert IsUtf8(c) by { assert c[Taken(c)..] == []; }
        TextJoins(c, Lossy(s[Taken(s)..]));
      } else {
        assert IsUtf8(REPLACEMENT) by { assert REPLACEMENT[3..] == []; }
        TextJoins(REPLACEMENT, Lossy(s[Taken(s)..]));
      }
    }
  }

  // ---- What a search in the lossy text finds ----

  predicate IsAt(hay: Bytes, needle: Bytes, i: nat) {
    i + |needle| <= |hay| && hay[i..i + |needle|] == needle
  }

  predicate Contains(hay: Bytes, needle: Bytes) { exists i :: 0 <= i <= |hay| && IsAt(hay, needle, i) }

  /** Two readings of a text's first character agree. */
  lemma SameFirst(piece: Bytes, rest: Bytes, text: Bytes)
    requires piece != [] && |piece| == Width(piece[0]) && StartsWithChar(text) && text <= piece + rest
    ensures Taken(text) == |piece| && text[..|piece|] == piece && text[|piece|..] <= rest
  {
    var n := |piece|;
    assert text[0] == (piece + rest)[0] == piece[0];
    assert text == (piece + rest)[..|text|];
    assert text[n..] == (piece + rest)[n..|text|] == rest[..|text| - n];
  }

  lemma Shift(a: Bytes, b: Bytes, needle: Bytes, i: nat)
    requires i >= |a|
    ensures IsAt(a + b, needle, i) <==> IsAt(b, needle, i - |a|)
  {
    if i + |needle| <= |a + b| {
      assert (a + b)[i..i + |needle|] == b[i - |a|..i - |a| + |needle|];
    }
  }

  lemma AtInRest(d: Bytes, n: nat, needle: Bytes, j: nat)
    requires n <= |d|
    ensures IsAt(d, needle, n + j) <==> IsAt(d[n..], needle, j)
  {
    assert d == d[..n] + d[n..];
    Shift(d[..n], d[n..], needle, n + j);
  }

  lemma NoneInRest(text: Bytes, needle: Bytes, n: nat)
    requires n <= |text| && !Contains(text, needle)
    ensures !Contains(text[n..], needle)
  {
    forall i | 0 <= i <= |text[n..]| ensures !IsAt(text[n..], needle, i) {
      AtInRest(text, n, needle, i);
      assert !IsAt(text, needle, n + i);
    }
  }

  lemma {:induction false} PrefixWasThere(d: Bytes, text: Bytes)
    requires IsUtf8(text) && text <= Lossy(d) && !Contains(text, REPLACEMENT)
    ensures text <= d
    decreases |text|
  {
    if text != [] {
      var n := Taken(text);
      SameFirst(First(d), Lossy(d[Taken(d)..]), text);
      assert !IsAt(text, REPLACEMENT, 0);
      NoneInRest(text, REPLACEMENT, n);
      PrefixWasThere(d[n..], text[n..]);
      Sequences.PrefixJoins(text, d, n);
    }
  }

  /** A match begins where a piece does. */
  lemma MatchIsAligned(piece: Bytes, rest: Bytes, text: Bytes, i: nat)
    requires forall k :: 0 < k < |piece| ==> IsTail(piece[k])
    requires text != [] && !IsTail(text[0]) && IsAt(piece + rest, text, i)
    ensures i == 0 || i >= |piece|
  {
    assert (piece + rest)[i] == (piece + rest)[i..i + |text|][0];
  }

  lemma {:induction false} MatchWasThere(d: Bytes, text: Bytes, i: nat) returns (j: nat)
    requires text != [] && IsUtf8(text) && !Contains(text, REPLACEMENT) && IsAt(Lossy(d), text, i)
    ensures IsAt(d, text, j)
    decreases |d|
  {
    if i == 0 {
      PrefixWasThere(d, text);
      j := 0;
    } else {
      var n, piece := Taken(d), First(d);
      MatchIsAligned(piece, Lossy(d[n..]), text, i);
      Shift(piece, Lossy(d[n..]), text, i);
      j := MatchWasThere(d[n..], text, i - |piece|);
      AtInRest(d, n, text, j);
      j := n + j;
    }
  }

  /** For text without a replacement character of its own, searching the lossy text finds exactly what is there. */
  lemma LossyFindsExactly(d: Bytes, text: Bytes)
    requires text != [] && IsUtf8(text) && !Contains(text, REPLACEMENT)
    ensures Contains(Lossy(d), text) <==> Contains(d, text)
  {
    if i :| 0 <= i <= |d| && IsAt(d, text, i) {
      assert d == d[..i] + text + d[i + |text|..];
      LossyKeepsText(d[..i], text, d[i + |text|..]);
      assert IsAt(Lossy(d), text, |Lossy(d[..i])|);
    }
    if i :| 0 <= i <= |Lossy(d)| && IsAt(Lossy(d), text, i) {
      var j := MatchWasThere(d, text, i);
    }
  }
}

/** What the heuristic scan returns, character by character. */
module TextMeaning {
  import opened Optional
  import opened TextScan
  import Trimming

  predicate HanChar(c: char) { 0x4E00 <= c as int <= 0x9FA5 }

  predicate WhiteChar(c: char) { c as int in {9, 10, 11, 12, 13, 32} }

  predicate LetterOrDigit(c: char) { 48 <= c as int <= 57 || 65 <= c as int <= 90 || 97 <= c as int <= 122 }

  /** Common Han, ASCII, CJK punctuation, full-width forms, emoji and symbols. */
  predicate TextChar(c: char) {
    var u := c as int;
    u < 0x80 || HanChar(c) || 0x3000 <= u <= 0x303F || 0xFF00 <= u <= 0xFFEF || 0x1F000 <= u <= 0x1FAFF
    || 0x2600 <= u <= 0x27BF
  }

  /** What ASCII text is made of: visible characters and white space other than the vertical tab. */
  predicate AsciiChar(c: char) { 33 <= c as int <= 126 || (WhiteChar(c) && c as int != 11) }

  function Places(s: string, p: char -> bool): set<nat> { set k: nat | k < |s| && p(s[k]) }

  lemma {:induction false} CountsLast(s: string, c: char, p: char -> bool)
    ensures Count(s + [c], p) == Count(s, p) + if p(c) then 1 else 0
  {
    if s == "" {
      assert "" + [c] == [c] && [c][1..] == "";
    } else {
      assert (s + [c])[0] == s[0] && (s + [c])[1..] == s[1..] + [c];
      CountsLast(s[1..], c, p);
    }
  }

  /** Counting counts places. */
  lemma {:induction false} CountsPlaces(s: string, p: char -> bool)
    ensures Count(s, p) == |Places(s, p)|
  {
    if s != "" {
      var n := |s| - 1;
      assert s == s[..n] + [s[n]];
      CountsLast(s[..n], s[n], p);
      CountsPlaces(s[..n], p);
      assert Places(s, p) == Places(s[..n], p) + (if p(s[n]) then {n} else {});
    }
  }

  /** `t` is what is left of `s` without the white space it begins with. */
  predicate IsTail(s: string, t: string) {
    && |t| <= |s| && t == s[|s| - |t|..] && (t != "" ==> !WhiteChar(t[0]))
    && forall k :: 0 <= k < |s| - |t| ==> WhiteChar(s[k])
  }

  lemma TailOfRest(s: string, t: string)
    requires s != "" && WhiteChar(s[0]) && IsTail(s[1..], t)
    ensures IsTail(s, t)
  {
    assert s[1..][|s| - 1 - |t|..] == s[|s| - |t|..];
    forall k | 0 < k < |s| - |t| ensures WhiteChar(s[k]) {
      assert s[k] == s[1..][k - 1];
    }
  }

  lemma {:induction false} StartTrimmed(s: string)
    ensures IsTail(s, Trimming.TrimStart(s))
  {
    if s != "" && Trimming.IsWhite(s[0]) {
      StartTrimmed(s[1..]);
      TailOfRest(s, Trimming.TrimStart(s[1..]));
    }
  }

  /** `t` is what is left of `s` without the white space it ends in. */
  predicate IsHead(s: string, t: string) {
    && |t| <= |s| && t == s[..|t|] && (t != "" ==> !WhiteChar(t[|t| - 1]))
    && forall k :: |t| <= k < |s| ==> WhiteChar(s[k])
  }

  lemma HeadOfRest(s: string, t: string)
    requires s != "" && WhiteChar(s[|s| - 1]) && IsHead(s[..|s| - 1], t)
    ensures IsHead(s, t)
  {
    assert s[..|s| - 1][..|t|] == s[..|t|];
    forall k | |t| <= k < |s| - 1 ensures WhiteChar(s[k]) {
      assert s[k] == s[..|s| - 1][k];
    }
  }

  lemma {:induction false} EndTrimmed(s: string)
    ensures IsHead(s, Trimming.TrimEnd(s))
  {
    if s != "" && Trimming.IsWhite(s[|s| - 1]) {
      EndTrimmed(s[..|s| - 1]);
      HeadOfRest(s, Trimming.TrimEnd(s[..|s| - 1]));
    }
  }

  /** Trimming takes white space off both ends and stops at the first other character. */
  lemma TrimMeans(s: string) returns (i: nat)
    ensures var t := Trimming.Trim(s);
      && i + |t| <= |s| && t == s[i..i + |t|]
      && (forall k :: 0 <= k < i || i + |t| <= k < |s| ==> WhiteChar(s[k]))
      && (t != "" ==> !WhiteChar(t[0]) && !WhiteChar(t[|t| - 1]))
  {
    StartTrimmed(s);
    var u := Trimming.TrimStart(s);
    EndTrimmed(u);
    i := |s| - |u|;
    assert forall k :: i <= k < |s| ==> s[k] == u[k - i];
    var t := Trimming.Trim(s);
    assert t == s[i..i + |t|];
  }

  lemma CharsMean(m: Scan, c: char)
    ensures m.HanText? ==> (m.Starts(c) <==> HanChar(c)) && (m.Admits(c) <==> TextChar(c))
    ensures m.AsciiText? ==> (m.Starts(c) <==> AsciiChar(c)) && (m.Admits(c) <==> AsciiChar(c))
    ensures IsAlnum(c) <==> LetterOrDigit(c)
  {
  }

  /** A stretch of text that opens with a Han character, holds text characters only, goes as far as they do, and of
      whose at least two characters more than three in five are Han. */
  predicate IsHanStretch(s: string, i: nat, j: nat) {
    && i + 2 <= j <= |s| && HanChar(s[i]) && (forall k :: i <= k < j ==> TextChar(s[k]))
    && (j < |s| ==> !TextChar(s[j]))
    && (forall k :: 0 <= k < i && HanChar(s[k]) ==> exists n :: k <= n < i && !TextChar(s[n]))
    && 5 * |Places(s[i..j], HanChar)| > 3 * (j - i)
  }

  lemma HanCandidate(s: string, i: nat, j: nat)
    ensures IsCandidate(HanText, s, i, j) <==> IsHanStretch(s, i, j)
  {
    forall c: char ensures (HanText.Starts(c) <==> HanChar(c)) && (HanText.Admits(c) <==> TextChar(c)) {
      CharsMean(HanText, c);
    }
    if i < j <= |s| {
      CountsPlaces(s[i..j], IsHan);
      assert Places(s[i..j], IsHan) == Places(s[i..j], HanChar);
    }
  }

  /** A stretch of ASCII text: as far as it goes to both sides, and with at least two letters or digits between its
      white space. */
  predicate IsAsciiStretch(s: string, i: nat, j: nat) {
    && i < j <= |s| && (forall k :: i <= k < j ==> AsciiChar(s[k]))
    && (j < |s| ==> !AsciiChar(s[j])) && (i > 0 ==> !AsciiChar(s[i - 1]))
    && |Places(Trimming.Trim(s[i..j]), LetterOrDigit)| >= 2
  }

  lemma AsciiRun(s: string, i: nat, j: nat)
    ensures IsRun(AsciiText, s, i, j) <==>
              && i < j <= |s| && (forall k :: i <= k < j ==> AsciiChar(s[k]))
              && (j < |s| ==> !AsciiChar(s[j])) && (i > 0 ==> !AsciiChar(s[i - 1]))
  {
    forall c: char ensures AsciiText.Admits(c) <==> AsciiChar(c) {
      CharsMean(AsciiText, c);
    }
    if i < j <= |s| && i > 0 {
      if IsRun(AsciiText, s, i, j) && AsciiChar(s[i - 1]) {
        assert Admitted(AsciiText, s, i - 1, i);
      }
      if !AsciiChar(s[i - 1]) {
        forall k | 0 <= k < i && AsciiText.Starts(s[k]) ensures !Admitted(AsciiText, s, k, i) {
          assert !AsciiText.Admits(s[i - 1]);
        }
      }
    }
  }

  lemma AsciiCandidate(s: string, i: nat, j: nat)
    ensures IsCandidate(AsciiText, s, i, j) <==> IsAsciiStretch(s, i, j)
  {
    AsciiRun(s, i, j);
    if i < j <= |s| {
      var t := Trimming.Trim(s[i..j]);
      CountsPlaces(t, IsAlnum);
      forall c: char ensures IsAlnum(c) <==> LetterOrDigit(c) {
        CharsMean(AsciiText, c);
      }
      assert Places(t, IsAlnum) == Places(t, LetterOrDigit);
    }
  }

  /** The text of a blob is the longest Han stretch, the first of them if several are as long; where there is none, the
      longest ASCII stretch without the white space at its ends; and where there is none of these, nothing. */
  lemma TextMeans(s: string, m: Scan, i: nat, j: nat)
    requires IsBest(m, s, i, j)
    ensures m.HanText? ==>
              && IsHanStretch(s, i, j) && m.Yield(s[i..j]) == s[i..j]
              && forall a: nat, b: nat :: IsHanStretch(s, a, b) ==> b - a < j - i || (b - a == j - i && i <= a)
    ensures m.AsciiText? ==>
              && IsAsciiStretch(s, i, j) && m.Yield(s[i..j]) == Trimming.Trim(s[i..j])
              && forall a: nat, b: nat :: IsAsciiStretch(s, a, b) ==>
                   var x, y := |Trimming.Trim(s[i..j])|, |Trimming.Trim(s[a..b])|; y < x || (y == x && i <= a)
  {
    HanCandidate(s, i, j);
    AsciiCandidate(s, i, j);
    if m.HanText? {
      forall a: nat, b: nat | IsHanStretch(s, a, b) ensures b - a < j - i || (b - a == j - i && i <= a) {
        HanCandidate(s, a, b);
        assert AtLeast(m, s, i, j, a, b);
      }
    } else {
      forall a: nat, b: nat | IsAsciiStretch(s, a, b)
        ensures var x, y := |Trimming.Trim(s[i..j])|, |Trimming.Trim(s[a..b])|; y < x || (y == x && i <= a)
      {
        AsciiCandidate(s, a, b);
        assert AtLeast(m, s, i, j, a, b);
      }
    }
  }

  /** A text of two or more Han characters is found as it is. */
  lemma HanTextIsFound(s: string, best: Option<(nat, nat)>)
    requires |s| >= 2 && (forall k :: 0 <= k < |s| ==> HanChar(s[k])) && Finds(HanText, s, best)
    ensures best.Some? && best.value.0 == 0 && best.value.1 == |s| && s[0..|s|] == s
  {
    AllCounted(s, IsHan);
    assert s[0..|s|] == s;
    assert IsCandidate(HanText, s, 0, |s|);
    assert AtLeast(HanText, s, best.value.0, best.value.1, 0, |s|);
  }

  lemma {:induction false} AllCounted(s: string, p: char -> bool)
    requires forall k :: 0 <= k < |s| ==> p(s[k])
    ensures Count(s, p) == |s|
  {
    if s != "" {
      AllCounted(s[1..], p);
    }
  }
}

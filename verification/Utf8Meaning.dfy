/** UTF-8 and its lossy reading, in terms of the code points that bytes encode (RFC 3629, section 3; the replacement of
    ill-formed bytes follows the Unicode Standard, section 3.9, maximal subparts). */
module Utf8Meaning {
  import opened Octets
  import opened Utf8
  import Sequences

  predicate IsScalar(u: nat) { u < 0xD800 || 0xE000 <= u < 0x11_0000 }

  /** The bytes of one code point. */
  function Encoded(u: nat): Bytes
    requires IsScalar(u)
  {
    if u < 0x80 then [u]
    else if u < 0x800 then [0xC0 + u / 0x40, 0x80 + u % 0x40]
    else if u < 0x1_0000 then [0xE0 + u / 0x1000, 0x80 + u / 0x40 % 0x40, 0x80 + u % 0x40]
    else [0xF0 + u / 0x4_0000, 0x80 + u / 0x1000 % 0x40, 0x80 + u / 0x40 % 0x40, 0x80 + u % 0x40]
  }

  lemma TwoDigits(a: nat, b: nat, u: nat)
    requires b < 0x40 && u == 0x40 * a + b
    ensures u / 0x40 == a && u % 0x40 == b
  {
  }

  lemma ThreeDigits(a: nat, b: nat, c: nat, u: nat)
    requires b < 0x40 && c < 0x40 && u == 0x1000 * a + 0x40 * b + c
    ensures u / 0x1000 == a && u / 0x40 % 0x40 == b && u % 0x40 == c
  {
    TwoDigits(0x40 * a + b, c, u);
    TwoDigits(a, b, u / 0x40);
  }

  lemma FourDigits(a: nat, b: nat, c: nat, d: nat, u: nat)
    requires b < 0x40 && c < 0x40 && d < 0x40 && u == 0x4_0000 * a + 0x1000 * b + 0x40 * c + d
    ensures u / 0x4_0000 == a && u / 0x1000 % 0x40 == b && u / 0x40 % 0x40 == c && u % 0x40 == d
  {
    ThreeDigits(0x40 * a + b, c, d, u);
    TwoDigits(a, b, u / 0x1000);
  }

  /** A first byte says how many there are, and the others fit behind it. */
  predicate IsWhole(e: Bytes) {
    && e != [] && |e| == Width(e[0])
    && (|e| > 1 ==> SecondFits(e[0], e[1])) && (|e| > 2 ==> IsTail(e[2])) && (|e| > 3 ==> IsTail(e[3]))
  }

  lemma SecondOfThree(a: nat, b: nat, c: nat, u: nat)
    requires b < 0x40 && c < 0x40 && u == 0x1000 * a + 0x40 * b + c
    requires 0x800 <= u < 0x1_0000 && IsScalar(u)
    ensures a <= 0xF && SecondFits(0xE0 + a, 0x80 + b)
  {
  }

  lemma SecondOfFour(a: nat, b: nat, c: nat, d: nat, u: nat)
    requires b < 0x40 && c < 0x40 && d < 0x40 && u == 0x4_0000 * a + 0x1000 * b + 0x40 * c + d
    requires 0x1_0000 <= u && IsScalar(u)
    ensures a <= 4 && SecondFits(0xF0 + a, 0x80 + b)
  {
  }

  lemma SplitTwice(u: nat)
    ensures u == 0x1000 * (u / 0x1000) + 0x40 * (u / 0x40 % 0x40) + u % 0x40
  {
    var h := u / 0x40;
    ThreeDigits(h / 0x40, h % 0x40, u % 0x40, u);
  }

  lemma SplitThrice(u: nat)
    ensures u == 0x4_0000 * (u / 0x4_0000) + 0x1000 * (u / 0x1000 % 0x40) + 0x40 * (u / 0x40 % 0x40) + u % 0x40
  {
    SplitTwice(u);
    var h := u / 0x1000;
    TwoDigits(h / 0x40, h % 0x40, h);
    FourDigits(h / 0x40, h % 0x40, u / 0x40 % 0x40, u % 0x40, u);
  }

  lemma ThreeAreWhole(a: nat, b: nat, c: nat)
    requires a <= 0xF && b < 0x40 && c < 0x40 && SecondFits(0xE0 + a, 0x80 + b)
    ensures IsWhole([0xE0 + a, 0x80 + b, 0x80 + c])
  {
  }

  lemma FourAreWhole(a: nat, b: nat, c: nat, d: nat)
    requires a <= 4 && b < 0x40 && c < 0x40 && d < 0x40 && SecondFits(0xF0 + a, 0x80 + b)
    ensures IsWhole([0xF0 + a, 0x80 + b, 0x80 + c, 0x80 + d])
  {
  }

  lemma EncodedIsWhole(u: nat)
    requires IsScalar(u)
    ensures IsWhole(Encoded(u))
  {
    var a, b, c, d := u / 0x4_0000, u / 0x1000, u / 0x40 % 0x40, u % 0x40;
    if 0x800 <= u < 0x1_0000 {
      SplitTwice(u);
      SecondOfThree(b, c, d, u);
      ThreeAreWhole(b, c, d);
    } else if 0x1_0000 <= u {
      SplitThrice(u);
      SecondOfFour(a, b % 0x40, c, d, u);
      FourAreWhole(a, b % 0x40, c, d);
    }
  }

  lemma WholeIsChar(e: Bytes, rest: Bytes)
    requires IsWhole(e)
    ensures StartsWithChar(e + rest) && Taken(e + rest) == |e|
    ensures (e + rest)[..|e|] == e && (e + rest)[|e|..] == rest
  {
    assert forall i :: 0 <= i < |e| ==> (e + rest)[i] == e[i];
  }

  /** The bytes of a code point are read as one character. */
  lemma EncodedIsChar(u: nat, rest: Bytes)
    requires IsScalar(u)
    ensures StartsWithChar(Encoded(u) + rest) && Taken(Encoded(u) + rest) == |Encoded(u)|
    ensures (Encoded(u) + rest)[..|Encoded(u)|] == Encoded(u) && (Encoded(u) + rest)[|Encoded(u)|..] == rest
  {
    EncodedIsWhole(u);
    WholeIsChar(Encoded(u), rest);
  }

  lemma WholeIsEncoded(e: Bytes) returns (u: nat)
    requires IsWhole(e)
    ensures IsScalar(u) && e == Encoded(u)
  {
    var a: int := e[0];
    if |e| == 1 {
      u := a;
    } else if |e| == 2 {
      var b: int := e[1];
      u := 0x40 * (a - 0xC0) + (b - 0x80);
      TwoDigits(a - 0xC0, b - 0x80, u);
    } else if |e| == 3 {
      var b: int, c: int := e[1], e[2];
      u := 0x1000 * (a - 0xE0) + 0x40 * (b - 0x80) + (c - 0x80);
      ThreeDigits(a - 0xE0, b - 0x80, c - 0x80, u);
    } else {
      var b: int, c: int, d: int := e[1], e[2], e[3];
      u := 0x4_0000 * (a - 0xF0) + 0x1000 * (b - 0x80) + 0x40 * (c - 0x80) + (d - 0x80);
      FourDigits(a - 0xF0, b - 0x80, c - 0x80, d - 0x80, u);
    }
  }

  /** And what is read as one character is the bytes of a code point. */
  lemma CharIsEncoded(s: Bytes) returns (u: nat)
    requires StartsWithChar(s)
    ensures IsScalar(u) && Taken(s) == |Encoded(u)| && s[..Taken(s)] == Encoded(u)
  {
    u := WholeIsEncoded(s[..Taken(s)]);
  }

  function TextOf(us: seq<nat>): Bytes
    requires forall i :: 0 <= i < |us| ==> IsScalar(us[i])
  {
    if us == [] then [] else Encoded(us[0]) + TextOf(us[1..])
  }

  lemma {:induction false} TextIsUtf8(us: seq<nat>)
    requires forall i :: 0 <= i < |us| ==> IsScalar(us[i])
    ensures IsUtf8(TextOf(us))
  {
    if us != [] {
      EncodedIsChar(us[0], TextOf(us[1..]));
      TextIsUtf8(us[1..]);
    }
  }

  /** A byte string is UTF-8 exactly when it is the code points of some text. */
  lemma {:induction false} Utf8IsText(s: Bytes) returns (us: seq<nat>)
    requires IsUtf8(s)
    ensures (forall i :: 0 <= i < |us| ==> IsScalar(us[i])) && s == TextOf(us)
    decreases |s|
  {
    if s == [] {
      us := [];
    } else {
      var u := CharIsEncoded(s);
      var more := Utf8IsText(s[Taken(s)..]);
      us := [u] + more;
      assert us[1..] == more && s == s[..Taken(s)] + s[Taken(s)..];
    }
  }

  /** Some code point's bytes begin like this. */
  ghost predicate BeginsChar(p: Bytes) { exists u: nat :: IsScalar(u) && p <= Encoded(u) }

  /** The lossy reading keeps a code point, and goes on behind it. */
  lemma LossyKeepsChar(u: nat, rest: Bytes)
    requires IsScalar(u)
    ensures Lossy(Encoded(u) + rest) == Encoded(u) + Lossy(rest)
  {
    EncodedIsChar(u, rest);
  }

  /** Where none stands, it puts U+FFFD for one byte, or for as many as still begin a code point, and never takes a byte
      that does not. */
  lemma LossyReplaces(s: Bytes) returns (n: nat)
    requires s != [] && forall u: nat :: IsScalar(u) ==> !(Encoded(u) <= s)
    ensures 1 <= n <= |s| && Lossy(s) == Encoded(0xFFFD) + Lossy(s[n..])
    ensures n > 1 ==> BeginsChar(s[..n])
    ensures n < |s| ==> !BeginsChar(s[..n + 1])
  {
    n := Taken(s);
    assert !StartsWithChar(s) by {
      if StartsWithChar(s) {
        var u := CharIsEncoded(s);
      }
    }
    assert Encoded(0xFFFD) == REPLACEMENT;
    if n > 1 {
      CutShort(s);
    }
    if n < |s| {
      forall u: nat | IsScalar(u) ensures !(s[..n + 1] <= Encoded(u)) {
        NoLonger(s, u);
      }
    }
  }

  /** What is cut short can be completed. */
  lemma CutShort(s: Bytes)
    requires s != [] && !StartsWithChar(s) && Taken(s) > 1
    ensures BeginsChar(s[..Taken(s)])
  {
    var n := Taken(s);
    var whole := s[..n] + if Width(s[0]) - n == 1 then [0x80] else [0x80, 0x80];
    assert whole[0] == s[0] && whole[1] == s[1] && (n == 3 ==> whole[2] == s[2]);
    assert StartsWithChar(whole) && Taken(whole) == |whole|;
    var u := CharIsEncoded(whole);
    assert whole[..|whole|] == whole && s[..n] <= whole;
  }

  /** What begins a code point is taken. */
  lemma NoLonger(s: Bytes, u: nat)
    requires s != [] && IsScalar(u) && Taken(s) < |s|
    ensures !(s[..Taken(s) + 1] <= Encoded(u))
  {
    var e, p := Encoded(u), s[..Taken(s) + 1];
    EncodedIsWhole(u);
    assert p[0] == s[0] && p[1] == s[1];
    if p <= e {
      assert forall i :: 0 <= i < |p| ==> s[i] == e[i];
    }
  }
}

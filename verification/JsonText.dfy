/** The inside of a JSON string (RFC 8259, section 7) in the form every exported line and the secret check use: `"`, `\`
    and the control bytes are escaped, the rest stands as it is. */
module JsonText {
  import opened Octets
  import Sequences

  const QUOTE: Byte := 34
  const BACKSLASH: Byte := 92

  function LowerHex(n: nat): Byte
    requires n < 16
  {
    if n < 10 then 48 + n else 87 + n
  }

  function EscapeByte(b: Byte): Bytes {
    if b == QUOTE || b == BACKSLASH then [BACKSLASH, b]
    else if b == 8 then [BACKSLASH, 98]
    else if b == 9 then [BACKSLASH, 116]
    else if b == 10 then [BACKSLASH, 110]
    else if b == 12 then [BACKSLASH, 102]
    else if b == 13 then [BACKSLASH, 114]
    else if b < 32 then [BACKSLASH, 117, 48, 48, LowerHex(b / 16), LowerHex(b % 16)]
    else [b]
  }

  function Escape(s: Bytes): Bytes { if s == [] then [] else EscapeByte(s[0]) + Escape(s[1..]) }

  lemma {:induction false} EscapeJoins(a: Bytes, b: Bytes)
    ensures Escape(a + b) == Escape(a) + Escape(b)
  {
    if a == [] {
      assert a + b == b && [] + Escape(b) == Escape(b);
    } else {
      assert (a + b)[0] == a[0] && (a + b)[1..] == a[1..] + b;
      EscapeJoins(a[1..], b);
      Sequences.Join(EscapeByte(a[0]), Escape(a[1..]), Escape(b));
    }
  }

  /** The byte an escape stands for and how long the escape is; a byte that begins none stands for itself. */
  function Unescaped(s: Bytes): (r: (Byte, nat))
    requires s != []
    ensures 1 <= r.1 <= |s|
  {
    if s[0] != BACKSLASH || |s| < 2 then (s[0], 1)
    else if s[1] == 98 then (8, 2)
    else if s[1] == 116 then (9, 2)
    else if s[1] == 110 then (10, 2)
    else if s[1] == 102 then (12, 2)
    else if s[1] == 114 then (13, 2)
    else if s[1] == 117 && |s| >= 6 then
      ((16 * Digit(s[4]) + Digit(s[5])) % 256, 6)
    else (s[1], 2)
  }

  function Digit(b: Byte): nat { if b >= 97 then b - 87 else if b >= 48 then b - 48 else 0 }

  function Unescape(s: Bytes): Bytes {
    if s == [] then [] else [Unescaped(s).0] + Unescape(s[Unescaped(s).1..])
  }

  lemma OneComesBack(b: Byte, rest: Bytes)
    ensures var e := EscapeByte(b) + rest;
            e != [] && Unescaped(e) == (b, |EscapeByte(b)|) && e[|EscapeByte(b)|..] == rest
  {
    var e := EscapeByte(b) + rest;
    assert e[..|EscapeByte(b)|] == EscapeByte(b) && e[|EscapeByte(b)|..] == rest;
    assert forall i :: 0 <= i < |EscapeByte(b)| ==> e[i] == EscapeByte(b)[i];
  }

  /** A JSON string's text is read back. */
  lemma {:induction false} TextComesBack(s: Bytes)
    ensures Unescape(Escape(s)) == s
  {
    if s != [] {
      OneComesBack(s[0], Escape(s[1..]));
      TextComesBack(s[1..]);
      assert s == [s[0]] + s[1..];
    }
  }

  /** No byte of it ends the string: control bytes do not occur, and a quote only behind a backslash. */
  lemma {:induction false} StaysInside(s: Bytes, i: nat)
    requires i < |Escape(s)|
    ensures Escape(s)[i] >= 32 && (Escape(s)[i] == QUOTE ==> i > 0 && Escape(s)[i - 1] == BACKSLASH)
  {
    var e := EscapeByte(s[0]);
    if i < |e| {
      assert Escape(s)[i] == e[i] && (i > 0 ==> Escape(s)[i - 1] == e[i - 1]);
    } else {
      StaysInside(s[1..], i - |e|);
      assert Escape(s)[i] == Escape(s[1..])[i - |e|];
      assert i > |e| ==> Escape(s)[i - 1] == Escape(s[1..])[i - |e| - 1];
    }
  }

  /** `trim_matches('"')`. */
  function TrimEnd(s: Bytes): Bytes { if s != [] && s[|s| - 1] == QUOTE then TrimEnd(s[..|s| - 1]) else s }

  function TrimStart(s: Bytes): Bytes { if s != [] && s[0] == QUOTE then TrimStart(s[1..]) else s }

  function TrimQuotes(s: Bytes): Bytes { TrimEnd(TrimStart(s)) }

  /** What the secret check looks for: the secret as a JSON string, without the quotes at its ends. */
  function JsonForm(secret: Bytes): Bytes { TrimQuotes([QUOTE] + Escape(secret) + [QUOTE]) }

  lemma {:induction false} TrimEndKeeps(s: Bytes)
    ensures TrimEnd(s) <= s
    ensures s != [] && s[|s| - 1] == QUOTE ==> TrimEnd(s) <= s[..|s| - 1]
  {
    if s != [] && s[|s| - 1] == QUOTE {
      TrimEndKeeps(s[..|s| - 1]);
    }
  }

  lemma StartTrims(e: Bytes)
    requires e != [] && e[0] != QUOTE
    ensures TrimStart([QUOTE] + e + [QUOTE]) == e + [QUOTE]
  {
    assert ([QUOTE] + e + [QUOTE])[1..] == e + [QUOTE];
    assert (e + [QUOTE])[0] == e[0];
  }

  lemma EndTrims(e: Bytes)
    ensures TrimEnd(e + [QUOTE]) == TrimEnd(e)
  {
    assert (e + [QUOTE])[..|e|] == e;
  }

  lemma {:induction false} LastEscape(s: Bytes)
    requires s != []
    ensures Escape(s) != [] && (Escape(s)[|Escape(s)| - 1] == QUOTE <==> s[|s| - 1] == QUOTE)
  {
    var front, last := s[..|s| - 1], s[|s| - 1];
    assert s == front + [last];
    EscapeJoins(front, [last]);
    assert [last][1..] == [] && EscapeByte(last) + [] == EscapeByte(last);
    assert Escape([last]) == EscapeByte(last);
  }

  /** It is the beginning of the escaped secret, and all of it unless the secret ends in a quote. */
  lemma JsonFormBegins(secret: Bytes)
    requires secret != []
    ensures JsonForm(secret) <= Escape(secret)
    ensures secret[|secret| - 1] != QUOTE ==> JsonForm(secret) == Escape(secret)
  {
    LastEscape(secret);
    StaysInside(secret, 0);
    StartTrims(Escape(secret));
    EndTrims(Escape(secret));
    TrimEndKeeps(Escape(secret));
  }
}

/** Percent-encoding and the secret check on every exported line (src/export.rs); RFC 3986, sections 2.1 and
    2.3. Lines and secrets are byte strings. */
module Percent {
  import opened Octets
  import opened Optional
  import JsonText
  import Sequences
  import opened Utf8

  const PERCENT: Byte := 37

  predicate IsUnreserved(b: Byte) {
    48 <= b <= 57 || 65 <= b <= 90 || 97 <= b <= 122 || b in {45, 46, 95, 126}
  }

  function HexValue(b: Byte): Option<nat> {
    if 48 <= b <= 57 then Some(b - 48)
    else if 65 <= b <= 70 then Some(b - 55)
    else if 97 <= b <= 102 then Some(b - 87)
    else None
  }

  function UpperHex(n: nat): Byte
    requires n < 16
  {
    if n < 10 then 48 + n else 55 + n
  }

  function Encode(s: Bytes): Bytes {
    if s == [] then []
    else (if IsUnreserved(s[0]) then [s[0]] else [PERCENT, UpperHex(s[0] / 16), UpperHex(s[0] % 16)]) + Encode(s[1..])
  }

  predicate IsEscape(s: Bytes) { |s| >= 3 && s[0] == PERCENT && HexValue(s[1]).Some? && HexValue(s[2]).Some? }

  function Escaped(s: Bytes): Byte
    requires IsEscape(s)
  {
    16 * HexValue(s[1]).value + HexValue(s[2]).value
  }

  function Decode(s: Bytes): Bytes {
    if s == [] then []
    else if IsEscape(s) then [Escaped(s)] + Decode(s[3..])
    else [s[0]] + Decode(s[1..])
  }

  method PercentEncode(s: Bytes) returns (out: Bytes)
    ensures out == Encode(s)
  {
    out := [];
    for i := 0 to |s|
      invariant out + Encode(s[i..]) == Encode(s)
    {
      assert s[i..][0] == s[i] && s[i..][1..] == s[i + 1..];
      if IsUnreserved(s[i]) {
        out := out + [s[i]];
      } else {
        out := out + [PERCENT, UpperHex(s[i] / 16), UpperHex(s[i] % 16)];
      }
    }
  }

  method PercentDecode(s: Bytes) returns (text: Bytes)
    ensures text == Lossy(Decode(s)) && IsUtf8(text)
  {
    var out: Bytes := [];
    var i := 0;
    while i < |s|
      invariant 0 <= i <= |s| && out + Decode(s[i..]) == Decode(s)
    {
      DecodeAt(s, i);
      if s[i] == PERCENT && i + 2 < |s| {
        var hi, lo := HexValue(s[i + 1]), HexValue(s[i + 2]);
        if hi.Some? && lo.Some? {
          Sequences.Join(out, [16 * hi.value + lo.value], Decode(s[i + 3..]));
          out := out + [16 * hi.value + lo.value];
          i := i + 3;
          continue;
        }
      }
      Sequences.Join(out, [s[i]], Decode(s[i + 1..]));
      out := out + [s[i]];
      i := i + 1;
    }
    assert out + Decode(s[i..]) == out;
    text := Lossy(out);
    LossyIsText(out);
  }

  lemma DecodeAt(s: Bytes, i: nat)
    requires i < |s|
    ensures IsEscape(s[i..]) ==> Decode(s[i..]) == [Escaped(s[i..])] + Decode(s[i + 3..])
    ensures !IsEscape(s[i..]) ==> Decode(s[i..]) == [s[i]] + Decode(s[i + 1..])
  {
    assert s[i..][1..] == s[i + 1..];
    if IsEscape(s[i..]) {
      assert s[i..][3..] == s[i + 3..];
    }
  }

  // ---- Every encoding is undone ----

  /** A form of `s` in which each byte is raw or an escape with digits of either case; `%` is always escaped. */
  predicate IsFormOf(m: Bytes, s: Bytes)
    decreases |s|
  {
    if s == [] then m == []
    else
      || (s[0] != PERCENT && m != [] && m[0] == s[0] && IsFormOf(m[1..], s[1..]))
      || (IsEscape(m) && Escaped(m) == s[0] && IsFormOf(m[3..], s[1..]))
  }

  lemma {:induction false} EncodeIsForm(s: Bytes)
    ensures IsFormOf(Encode(s), s)
  {
    if s != [] {
      EncodeIsForm(s[1..]);
      var e, rest := Encode(s), Encode(s[1..]);
      if IsUnreserved(s[0]) {
        assert e[1..] == rest;
      } else {
        assert e[3..] == rest && IsEscape(e) && Escaped(e) == s[0];
      }
    }
  }

  lemma DecodeRaw(m: Bytes, suffix: Bytes)
    requires m != [] && m[0] != PERCENT
    ensures Decode(m + suffix) == [m[0]] + Decode(m[1..] + suffix)
  {
    assert (m + suffix)[0] == m[0] && (m + suffix)[1..] == m[1..] + suffix;
  }

  lemma DecodeEscape(m: Bytes, suffix: Bytes)
    requires IsEscape(m)
    ensures Decode(m + suffix) == [Escaped(m)] + Decode(m[3..] + suffix)
  {
    assert (m + suffix)[3..] == m[3..] + suffix;
    assert IsEscape(m + suffix) && Escaped(m + suffix) == Escaped(m);
  }

  lemma {:induction false} DecodeForm(m: Bytes, s: Bytes, suffix: Bytes)
    requires IsFormOf(m, s)
    ensures Decode(m + suffix) == s + Decode(suffix)
    decreases |s|
  {
    if s == [] {
      assert m + suffix == suffix && [] + Decode(suffix) == Decode(suffix);
    } else {
      if IsEscape(m) && Escaped(m) == s[0] && IsFormOf(m[3..], s[1..]) {
        DecodeForm(m[3..], s[1..], suffix);
        DecodeEscape(m, suffix);
      } else {
        DecodeForm(m[1..], s[1..], suffix);
        DecodeRaw(m, suffix);
      }
      Sequences.Join([s[0]], s[1..], Decode(suffix));
      assert s == [s[0]] + s[1..];
    }
  }

  lemma {:induction false} DecodeEncode(s: Bytes)
    ensures Decode(Encode(s)) == s
  {
    EncodeIsForm(s);
    DecodeForm(Encode(s), s, []);
    assert Encode(s) + [] == Encode(s) && s + [] == s;
  }

  /** As text: what is encoded is decoded to the very same text. */
  lemma TextComesBack(text: Bytes)
    requires IsUtf8(text)
    ensures Lossy(Decode(Encode(text))) == text
  {
    DecodeEncode(text);
    LossyOfText(text);
  }

  // ---- After a prefix ----

  /** The prefix does not end inside something that could still become an escape. */
  predicate IsClosed(p: Bytes) {
    if p == [] then true
    else if IsEscape(p) then IsClosed(p[3..])
    else !(p[0] == PERCENT && (|p| == 1 || (|p| == 2 && HexValue(p[1]).Some?))) && IsClosed(p[1..])
  }

  lemma StaysPlain(p: Bytes, rest: Bytes)
    requires p != [] && !IsEscape(p) && (IsClosed(p) || !IsClosed(p[1..]))
    ensures Decode(p + rest) == [p[0]] + Decode(p[1..] + rest)
  {
    assert (p + rest)[0] == p[0] && (p + rest)[1..] == p[1..] + rest;
    assert |p| == 2 && !IsClosed(p[1..]) ==> p[1] == PERCENT;
    assert !IsEscape(p + rest);
  }

  lemma {:induction false} ClosedSplits(p: Bytes, rest: Bytes)
    requires IsClosed(p)
    ensures Decode(p + rest) == Decode(p) + Decode(rest)
  {
    if p == [] {
      assert p + rest == rest && [] + Decode(rest) == Decode(rest);
    } else if IsEscape(p) {
      ClosedSplits(p[3..], rest);
      DecodeEscape(p, rest);
      Sequences.Join([Escaped(p)], Decode(p[3..]), Decode(rest));
    } else {
      ClosedSplits(p[1..], rest);
      StaysPlain(p, rest);
      Sequences.Join([p[0]], Decode(p[1..]), Decode(rest));
    }
  }

  lemma {:induction false} DecodeShrinks(s: Bytes)
    ensures |Decode(s)| <= |s|
    ensures IsEscape(s) ==> |Decode(s)| <= |s| - 2
  {
    if s != [] {
      DecodeShrinks(if IsEscape(s) then s[3..] else s[1..]);
    }
  }

  /** Exactly the closed prefixes leave whatever follows to be decoded on its own. */
  lemma {:induction false} OpenPrefix(p: Bytes) returns (rest: Bytes)
    requires !IsClosed(p)
    ensures Decode(p + rest) != Decode(p) + Decode(rest)
  {
    if IsEscape(p) {
      rest := OpenPrefix(p[3..]);
      DecodeEscape(p, rest);
      Differ([Escaped(p)], Decode(p[3..] + rest), Decode(p[3..]), Decode(rest));
    } else if !IsClosed(p[1..]) {
      rest := OpenPrefix(p[1..]);
      StaysPlain(p, rest);
      Differ([p[0]], Decode(p[1..] + rest), Decode(p[1..]), Decode(rest));
    } else {
      rest := Completed(p);
    }
  }

  lemma Differ(head: Bytes, all: Bytes, a: Bytes, b: Bytes)
    requires all != a + b
    ensures head + all != head + a + b
  {
    assert (head + all)[|head|..] == all;
    assert (head + a + b)[|head|..] == a + b;
  }

  /** A prefix that stops inside an escape is completed by digits, and then decodes to less. */
  lemma Completed(p: Bytes) returns (rest: Bytes)
    requires p != [] && |p| <= 2 && p[0] == PERCENT && (|p| == 2 ==> HexValue(p[1]).Some?)
    ensures Decode(p + rest) != Decode(p) + Decode(rest)
  {
    rest := if |p| == 1 then [48, 48] else [48];
    DecodeShrinks(p + rest);
    assert IsEscape(p + rest);
    assert |Decode(rest)| == |rest| by {
      assert rest[1..] == [] || rest[1..] == [48];
    }
    if |p| == 2 {
      assert p[1..] == [p[1]] && [p[1]][1..] == [];
      assert Decode(p[1..]) == [p[1]];
    } else {
      assert p[1..] == [];
    }
    assert |Decode(p)| == |p|;
  }

  // ---- The secret check ----

  function LowerByte(b: Byte): Byte { if 65 <= b <= 90 then b + 32 else b }

  function Lower(s: Bytes): Bytes { seq(|s|, i requires 0 <= i < |s| => LowerByte(s[i])) }

  /** One text shows the secret: as it is, inside a JSON string, or percent-encoded with digits of either case. */
  predicate Shows(hay: Bytes, secret: Bytes) {
    || Contains(hay, secret)
    || (JsonText.JsonForm(secret) != secret && Contains(hay, JsonText.JsonForm(secret)))
    || (Lower(Encode(secret)) != Lower(secret) && Contains(Lower(hay), Lower(Encode(secret))))
  }

  /** `assert_no_secret`: both the line and the decoded line are looked at; an empty secret is never found. */
  method AssertNoSecret(line: Bytes, secret: Bytes) returns (leaks: bool)
    ensures leaks == (secret != [] && (Shows(line, secret) || Shows(Lossy(Decode(line)), secret)))
  {
    if secret == [] {
      return false;
    }
    var jsonEscaped := JsonText.JsonForm(secret);
    var encodedFolded, secretFolded := Lower(Encode(secret)), Lower(secret);
    var encodedIsSecret := encodedFolded == secretFolded;
    var decoded := PercentDecode(line);
    var hays := [line, decoded];
    for i := 0 to 2
      invariant forall k :: 0 <= k < i ==> !Shows(hays[k], secret)
    {
      var hay := hays[i];
      if Contains(hay, secret) || (jsonEscaped != secret && Contains(hay, jsonEscaped)) {
        return true;
      }
      if !encodedIsSecret && Contains(Lower(hay), encodedFolded) {
        return true;
      }
    }
    assert !Shows(hays[0], secret) && !Shows(hays[1], secret);
    return false;
  }

  /** Whatever mixture of raw bytes and escapes spells the secret, after a prefix that does not end in an
      incomplete escape and before anything at all, the decoded line shows it, so the line is refused. */
  lemma AnyFormIsRefused(prefix: Bytes, form: Bytes, suffix: Bytes, secret: Bytes)
    requires secret != [] && IsUtf8(secret) && IsFormOf(form, secret) && IsClosed(prefix)
    ensures Shows(Lossy(Decode(prefix + form + suffix)), secret)
  {
    var before, after := Decode(prefix), Decode(suffix);
    ClosedSplits(prefix, form + suffix);
    DecodeForm(form, secret, suffix);
    Sequences.Join(prefix, form, suffix);
    Sequences.Join(before, secret, after);
    LossyKeepsText(before, secret, after);
    assert IsAt(Lossy(before) + secret + Lossy(after), secret, |Lossy(before)|);
  }
}

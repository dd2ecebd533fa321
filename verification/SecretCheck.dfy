/** What the secret check refuses, byte by byte (`assert_no_secret` in src/export.rs). */
module SecretCheck {
  import opened Octets
  import opened Optional
  import opened Percent
  import opened Utf8
  import JsonText
  import Sequences

  // ---- The encoding, digit by digit ----

  const UPPER_DIGITS := "0123456789ABCDEF"
  const LOWER_DIGITS := "0123456789abcdef"

  lemma HexDigits(n: nat)
    requires n < 16
    ensures UPPER_DIGITS[n] as int < 256 && LOWER_DIGITS[n] as int < 256
    ensures HexValue(UPPER_DIGITS[n] as int) == Some(n)
    ensures HexValue(LOWER_DIGITS[n] as int) == Some(n)
  {
    UpperDigit(n);
    LowerDigit(n);
  }

  lemma UpperDigit(n: nat)
    requires n < 16
    ensures UPPER_DIGITS[n] as int == if n < 10 then 48 + n else 55 + n
  {
  }

  lemma LowerDigit(n: nat)
    requires n < 16
    ensures LOWER_DIGITS[n] as int == if n < 10 then 48 + n else 87 + n
  {
    assert LOWER_DIGITS[10..] == "abcdef" && LOWER_DIGITS[..10] == UPPER_DIGITS[..10];
    if n < 10 {
      UpperDigit(n);
      assert LOWER_DIGITS[n] == LOWER_DIGITS[..10][n] && UPPER_DIGITS[n] == UPPER_DIGITS[..10][n];
    } else {
      assert LOWER_DIGITS[n] == "abcdef"[n - 10];
    }
  }

  predicate IsHexDigit(c: int) {
    ('0' as int <= c <= '9' as int) || ('a' as int <= c <= 'f' as int) || ('A' as int <= c <= 'F' as int)
  }

  /** Letters, digits, `-`, `_`, `.` and `~` stand for themselves; every other byte is `%` and its two upper-case
      digits. */
  lemma EncodesByte(b: Byte)
    ensures Encode([b]) ==
            if b in {'-' as int, '_' as int, '.' as int, '~' as int}
               || ('0' as int <= b <= '9' as int) || ('a' as int <= b <= 'z' as int) || ('A' as int <= b <= 'Z' as int)
            then [b]
            else ['%' as int, UPPER_DIGITS[b / 16] as int, UPPER_DIGITS[b % 16] as int]
  {
    assert [b][1..] == [];
    var e := if IsUnreserved(b) then [b] else [PERCENT, UpperHex(b / 16), UpperHex(b % 16)];
    assert e + [] == e;
    if !IsUnreserved(b) {
      UpperDigit(b / 16);
      UpperDigit(b % 16);
    }
  }

  lemma {:induction false} EncodeJoins(a: Bytes, b: Bytes)
    ensures Encode(a + b) == Encode(a) + Encode(b)
  {
    if a == [] {
      assert a + b == b && [] + Encode(b) == Encode(b);
    } else {
      assert (a + b)[0] == a[0] && (a + b)[1..] == a[1..] + b;
      EncodeJoins(a[1..], b);
      var e := if IsUnreserved(a[0]) then [a[0]] else [PERCENT, UpperHex(a[0] / 16), UpperHex(a[0] % 16)];
      Sequences.Join(e, Encode(a[1..]), Encode(b));
    }
  }

  /** Decoding reads `%` and two digits of either case as one byte ... */
  lemma EscapeIsRead(hi: nat, lo: nat, upperHi: bool, upperLo: bool, rest: Bytes)
    requires hi < 16 && lo < 16
    ensures var h, l := if upperHi then UPPER_DIGITS[hi] else LOWER_DIGITS[hi],
                        if upperLo then UPPER_DIGITS[lo] else LOWER_DIGITS[lo];
      && h as int < 256 && l as int < 256
      && Decode(['%' as int, h as int, l as int] + rest) == [16 * hi + lo] + Decode(rest)
  {
    HexDigits(hi);
    HexDigits(lo);
    var h, l := if upperHi then UPPER_DIGITS[hi] else LOWER_DIGITS[hi],
                if upperLo then UPPER_DIGITS[lo] else LOWER_DIGITS[lo];
    var s: Bytes := ['%' as int, h as int, l as int];
    assert (s + rest)[3..] == rest && (s + rest)[0] == 37 && (s + rest)[1] == h as int && (s + rest)[2] == l as int;
  }

  /** ... and any other byte, or a `%` without two digits behind it, as it is. */
  lemma OtherIsKept(s: Bytes)
    requires s != []
    requires s[0] != '%' as int || |s| < 3 || !IsHexDigit(s[1]) || !IsHexDigit(s[2])
    ensures Decode(s) == [s[0]] + Decode(s[1..])
  {
    assert !IsEscape(s) by {
      if |s| >= 3 {
        DigitsOnly(s[1]);
        DigitsOnly(s[2]);
      }
    }
  }

  lemma DigitsOnly(c: Byte)
    ensures HexValue(c).Some? <==> IsHexDigit(c)
  {
  }

  /** In a JSON string, a quote and a backslash follow a backslash, five control bytes have a letter, the others `u00`
      and their two lower-case digits behind a backslash, and every other byte stands for itself. */
  lemma JsonByte(b: Byte)
    ensures LOWER_DIGITS[b / 16] as int < 256 && LOWER_DIGITS[b % 16] as int < 256
    ensures var slash: Byte := '\\' as int;
      JsonText.Escape([b]) ==
        if b == '"' as int then [slash, '"' as int]
        else if b == slash then [slash, slash]
        else if b == 8 then [slash, 'b' as int]
        else if b == 9 then [slash, 't' as int]
        else if b == 10 then [slash, 'n' as int]
        else if b == 12 then [slash, 'f' as int]
        else if b == 13 then [slash, 'r' as int]
        else if b < 32 then
          [slash, 'u' as int, '0' as int, '0' as int, LOWER_DIGITS[b / 16] as int, LOWER_DIGITS[b % 16] as int]
        else [b]
  {
    LowerDigit(b / 16);
    LowerDigit(b % 16);
    assert [b][1..] == [] && JsonText.EscapeByte(b) + [] == JsonText.EscapeByte(b);
  }

  // ---- What is refused ----

  lemma Inside(pre: Bytes, x: Bytes, post: Bytes)
    ensures Contains(pre + x + post, x)
  {
    assert IsAt(pre + x + post, x, |pre|);
  }

  lemma Found(hay: Bytes, x: Bytes) returns (pre: Bytes, post: Bytes)
    requires Contains(hay, x)
    ensures hay == pre + x + post
  {
    var i :| 0 <= i <= |hay| && IsAt(hay, x, i);
    pre, post := hay[..i], hay[i + |x|..];
    assert hay == hay[..i] + hay[i..i + |x|] + hay[i + |x|..];
  }

  /** Equal but for the case of ASCII letters. */
  predicate SameButCase(a: Bytes, b: Bytes) {
    |a| == |b| && forall i :: 0 <= i < |a| ==>
      a[i] == b[i] || ('a' as int <= a[i] <= 'z' as int && b[i] == a[i] - 32)
      || ('a' as int <= b[i] <= 'z' as int && a[i] == b[i] - 32)
  }

  lemma CaseFolds(a: Bytes, b: Bytes)
    ensures Lower(a) == Lower(b) <==> SameButCase(a, b)
  {
    if SameButCase(a, b) {
      forall i | 0 <= i < |a| ensures Lower(a)[i] == Lower(b)[i] {
      }
    }
    if Lower(a) == Lower(b) {
      assert |a| == |Lower(a)| == |Lower(b)| == |b|;
      forall i | 0 <= i < |a| ensures LowerByte(a[i]) == LowerByte(b[i]) {
        assert LowerByte(a[i]) == Lower(a)[i] == Lower(b)[i] == LowerByte(b[i]);
      }
    }
  }

  lemma LowerJoins(a: Bytes, b: Bytes, c: Bytes)
    ensures Lower(a + b + c) == Lower(a) + Lower(b) + Lower(c)
  {
  }

  lemma LowerSlice(s: Bytes, i: nat, n: nat)
    requires i + n <= |s|
    ensures Lower(s)[i..i + n] == Lower(s[i..i + n])
  {
  }

  /** One way a piece of a text can give the secret away. */
  predicate Spells(x: Bytes, secret: Bytes) {
    || x == secret || x == JsonText.JsonForm(secret)
    || (SameButCase(x, Encode(secret)) && !SameButCase(Encode(secret), secret))
  }

  lemma SpelledIsShown(pre: Bytes, x: Bytes, post: Bytes, secret: Bytes)
    requires Spells(x, secret)
    ensures Shows(pre + x + post, secret)
  {
    Inside(pre, x, post);
    if SameButCase(x, Encode(secret)) && !SameButCase(Encode(secret), secret) {
      CaseFolds(x, Encode(secret));
      CaseFolds(Encode(secret), secret);
      LowerJoins(pre, x, post);
      Inside(Lower(pre), Lower(x), Lower(post));
    }
  }

  lemma ShownIsSpelled(hay: Bytes, secret: Bytes) returns (pre: Bytes, x: Bytes, post: Bytes)
    requires Shows(hay, secret)
    ensures hay == pre + x + post && Spells(x, secret)
  {
    if Contains(hay, secret) {
      x := secret;
      pre, post := Found(hay, x);
    } else if JsonText.JsonForm(secret) != secret && Contains(hay, JsonText.JsonForm(secret)) {
      x := JsonText.JsonForm(secret);
      pre, post := Found(hay, x);
    } else {
      var e := Lower(Encode(secret));
      var i :| 0 <= i <= |Lower(hay)| && IsAt(Lower(hay), e, i);
      LowerSlice(hay, i, |e|);
      x := hay[i..i + |e|];
      CaseFolds(x, Encode(secret));
      CaseFolds(Encode(secret), secret);
      pre, post := hay[..i], hay[i + |e|..];
      assert hay == hay[..i] + hay[i..i + |e|] + hay[i + |e|..];
    }
  }

  /** A text shows the secret exactly when some piece of it is the secret, its JSON form, or its percent-encoding in
      letters of any case (for a secret the encoding changes). */
  lemma ShowsExactlyWhen(hay: Bytes, secret: Bytes)
    ensures Shows(hay, secret) <==> exists pre, x, post :: hay == pre + x + post && Spells(x, secret)
  {
    if Shows(hay, secret) {
      var pre, x, post := ShownIsSpelled(hay, secret);
    }
    if pre, x, post :| hay == pre + x + post && Spells(x, secret) {
      SpelledIsShown(pre, x, post, secret);
    }
  }

  /** Inside any JSON string, with anything before and after it in that string, the secret is refused. */
  lemma InsideJsonIsRefused(pre: Bytes, before: Bytes, secret: Bytes, after: Bytes, post: Bytes)
    requires secret != []
    ensures Shows(pre + JsonText.Escape(before + secret + after) + post, secret)
  {
    JsonText.EscapeJoins(before + secret, after);
    JsonText.EscapeJoins(before, secret);
    JsonText.JsonFormBegins(secret);
    var b, e, a := JsonText.Escape(before), JsonText.Escape(secret), JsonText.Escape(after);
    var x := JsonText.JsonForm(secret);
    assert e == x + e[|x|..];
    Gathered(pre, b, x, e[|x|..], a, post);
    SpelledIsShown(pre + b, x, e[|x|..] + a + post, secret);
  }

  lemma Gathered(pre: Bytes, b: Bytes, x: Bytes, y: Bytes, a: Bytes, post: Bytes)
    ensures pre + (b + (x + y) + a) + post == (pre + b) + x + (y + a + post)
  {
  }
}

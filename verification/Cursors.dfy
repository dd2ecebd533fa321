/** Time cursors as text: the client prints an i64, the server reads it back as a date or as seconds
    (clients/rust/src/client.rs, `pull_page`; src/server/handlers/mod.rs, `parse_time_bound`). The calendar is
    the parameter `date`: the start of the day that eight digits name, if they name one. */
module Cursors {
  import Decimal
  import opened Optional

  const I64_MIN := -0x8000_0000_0000_0000
  const I64_MAX := 0x7FFF_FFFF_FFFF_FFFF

  type Calendar = string -> Option<int>

  predicate AllDigits(s: string) { forall c :: c in s ==> Decimal.IsDigit(c) }

  function Print(i: int): string { if i < 0 then "-" + Decimal.Render(-i) else Decimal.Render(i) }

  /** `str::parse::<i64>`. */
  function ParseI64(s: string): Option<int> {
    var digits := if s != "" && (s[0] == '-' || s[0] == '+') then s[1..] else s;
    if digits == "" || !AllDigits(digits) then None
    else
      var n: int := Decimal.Value(digits);
      var v := if s[0] == '-' then -n else n;
      if I64_MIN <= v <= I64_MAX then Some(v) else None
  }

  function ParseBound(s: string, date: Calendar): Option<int> {
    if |s| == 8 && AllDigits(s) then date(s) else ParseI64(s)
  }

  /** Not one of the numbers that print as eight digits. */
  predicate IsCursor(i: int) { I64_MIN <= i <= I64_MAX && !(10_000_000 <= i < 100_000_000) }

  predicate Usable(cursor: Option<int>) { cursor.Some? ==> IsCursor(cursor.value) }

  lemma {:induction false} RenderAtLeast(n: nat, k: nat)
    requires n >= Decimal.Pow10(k)
    ensures |Decimal.Render(n)| >= k + 1
  {
    if k > 0 {
      RenderAtLeast(n / 10, k - 1);
    }
  }

  lemma EightDigits(n: nat)
    ensures |Decimal.Render(n)| == 8 <==> 10_000_000 <= n < 100_000_000
  {
    assert Decimal.Pow10(7) == 10_000_000 && Decimal.Pow10(8) == 100_000_000;
    if n < 10_000_000 {
      Decimal.RenderLength(n, 7);
    } else if n < 100_000_000 {
      Decimal.RenderLength(n, 8);
      RenderAtLeast(n, 7);
    } else {
      RenderAtLeast(n, 8);
    }
  }

  /** A printed number is read back, with or without a plus sign, exactly when it fits in 64 bits. */
  lemma ParsePrinted(i: int)
    ensures var fits := -0x8000_0000_0000_0000 <= i < 0x8000_0000_0000_0000;
      && ParseI64(Print(i)) == (if fits then Some(i) else None)
      && (i >= 0 ==> ParseI64("+" + Print(i)) == if fits then Some(i) else None)
  {
    if i < 0 {
      ParseSigned("-", -i);
    } else {
      ParseSigned("+", i);
      ParseSigned("", i);
      assert "" + Decimal.Render(i) == Print(i);
    }
  }

  lemma ParseSigned(sign: string, n: nat)
    requires sign in {"", "+", "-"}
    ensures ParseI64(sign + Decimal.Render(n))
         == var v: int := if sign == "-" then 0 - n else n;
            if -0x8000_0000_0000_0000 <= v < 0x8000_0000_0000_0000 then Some(v) else None
  {
    var digits := Decimal.Render(n);
    var s := sign + digits;
    Decimal.ValueOfRender(n);
    assert digits[0] in digits;
    if sign == "" {
      assert s == digits;
    } else {
      assert s[0] == sign[0] && s[1..] == digits;
    }
  }

  /** What is no number is no cursor. */
  lemma OnlyNumbers(s: string)
    requires s == "" || s == "+" || s == "-" || exists i :: 1 <= i < |s| && !('0' <= s[i] <= '9')
    ensures ParseI64(s) == None
  {
    if i :| 1 <= i < |s| && !('0' <= s[i] <= '9') {
      assert s[i] in s && s[i] in s[1..];
    }
  }

  /** A cursor survives the trip exactly when it does not print as eight digits, or the day they name starts at
      that very second. */
  lemma CursorSurvives(i: int, date: Calendar)
    requires I64_MIN <= i <= I64_MAX
    ensures ParseBound(Print(i), date) == Some(i) <==> IsCursor(i) || date(Print(i)) == Some(i)
  {
    ParsePrinted(i);
    var s := Print(i);
    if i < 0 {
      assert s[0] == '-' && s[0] in s;
    } else {
      EightDigits(i);
    }
  }
}

/** What slugs and file names look like, character by character, and which names are refused. */
module NamingMeaning {
  import opened Naming
  import Decimal

  predicate Slugs(c: char) {
    48 <= c as int <= 57 || 65 <= c as int <= 90 || 97 <= c as int <= 122 || c == '-' || c == '_'
  }

  const DEVICES := ["CON", "PRN", "AUX", "NUL", "CONIN$", "CONOUT$",
                    "COM1", "COM2", "COM3", "COM4", "COM5", "COM6", "COM7", "COM8", "COM9",
                    "LPT1", "LPT2", "LPT3", "LPT4", "LPT5", "LPT6", "LPT7", "LPT8", "LPT9"]

  /** `a` is `b` in letters of any case; `b` is in capitals. */
  predicate InAnyCase(a: string, b: string) {
    |a| == |b| && forall i :: 0 <= i < |a| ==>
      a[i] == b[i] || (97 <= a[i] as int <= 122 && a[i] as int - 32 == b[i] as int)
  }

  lemma CaseMeans(a: string, b: string)
    requires forall i :: 0 <= i < |b| ==> !(97 <= b[i] as int <= 122)
    ensures ToUpper(a) == b <==> InAnyCase(a, b)
  {
    if InAnyCase(a, b) {
      forall i | 0 <= i < |a| ensures ToUpper(a)[i] == b[i] {
      }
    }
    if ToUpper(a) == b {
      forall i | 0 <= i < |a| ensures Upper(a[i]) == b[i] {
        assert ToUpper(a)[i] == b[i];
      }
    }
  }

  lemma {:induction false} BeforeDotMeans(s: string)
    ensures var b := BeforeFirstDot(s);
            b <= s && '.' !in b && (|b| < |s| ==> s[|b|] == '.')
  {
    if s != [] && s[0] != '.' {
      BeforeDotMeans(s[1..]);
      var b := BeforeFirstDot(s[1..]);
      assert s == [s[0]] + s[1..] && BeforeFirstDot(s) == [s[0]] + b;
    }
  }

  lemma {:induction false} TrimEndMeans(s: string)
    ensures var t := TrimEnd(s);
      && t <= s && (t != [] ==> t[|t| - 1] != ' ' && t[|t| - 1] != '.')
      && forall k :: |t| <= k < |s| ==> s[k] == ' ' || s[k] == '.'
  {
    if s != [] && s[|s| - 1] in {' ', '.'} {
      TrimEndMeans(s[..|s| - 1]);
    }
  }

  lemma DeviceListed(u: string)
    ensures u in DEVICES <==>
            || u in {"CON", "PRN", "AUX", "NUL", "CONIN$", "CONOUT$"}
            || (|u| == 4 && u[..3] in {"COM", "LPT"} && '1' <= u[3] <= '9')
  {
    if |u| == 4 && u[..3] in {"COM", "LPT"} && '1' <= u[3] <= '9' {
      Numbered(u);
    }
    if u in DEVICES {
      var i :| 0 <= i < |DEVICES| && DEVICES[i] == u;
      if i >= 6 {
        NumberedAt(i);
      }
    }
  }

  lemma NumberedAt(i: nat)
    requires 6 <= i < 24
    ensures |DEVICES[i]| == 4 && DEVICES[i][..3] == (if i < 15 then "COM" else "LPT")
    ensures DEVICES[i][3] as int == 49 + (i - 6) % 9
  {
  }

  lemma Numbered(u: string)
    requires |u| == 4 && u[..3] in {"COM", "LPT"} && '1' <= u[3] <= '9'
    ensures u in DEVICES
  {
    var i := (if u[..3] == "COM" then 6 else 15) + (u[3] as int - 49);
    NumberedAt(i);
    assert u == u[..3] + [u[3]] && DEVICES[i] == DEVICES[i][..3] + [DEVICES[i][3]];
    assert u == DEVICES[i];
  }

  /** Up to `dot`, the first dot or the end, a name has `end` characters and then only spaces. */
  predicate Stands(s: string, dot: nat, end: nat) {
    && end <= dot <= |s| && (forall k :: 0 <= k < dot ==> s[k] != '.') && (dot < |s| ==> s[dot] == '.')
    && (forall k :: end <= k < dot ==> s[k] == ' ') && (end > 0 ==> s[end - 1] != ' ')
  }

  lemma StandsOnce(s: string, dot: nat, end: nat, dot': nat, end': nat)
    requires Stands(s, dot, end) && Stands(s, dot', end')
    ensures dot == dot' && end == end'
  {
  }

  ghost predicate NamesDevice(s: string) {
    exists dot: nat, end: nat, i: nat :: Stands(s, dot, end) && i < |DEVICES| && InAnyCase(s[..end], DEVICES[i])
  }

  /** A name is a device exactly when what stands before its first dot, without spaces at the end, is one of the device
      names in letters of any case. */
  lemma DeviceMeans(s: string)
    ensures IsReservedDevice(s) <==> NamesDevice(s)
  {
    var dot, end := Base(s);
    DeviceListed(ToUpper(s[..end]));
    forall i: nat | i < |DEVICES| ensures ToUpper(s[..end]) == DEVICES[i] <==> InAnyCase(s[..end], DEVICES[i]) {
      Capitals(i);
      CaseMeans(s[..end], DEVICES[i]);
    }
    forall dot': nat, end': nat, i: nat | Stands(s, dot', end') && i < |DEVICES| && InAnyCase(s[..end'], DEVICES[i])
      ensures IsReservedDevice(s)
    {
      StandsOnce(s, dot, end, dot', end');
    }
  }

  lemma Base(s: string) returns (dot: nat, end: nat)
    ensures Stands(s, dot, end) && TrimEnd(BeforeFirstDot(s)) == s[..end]
  {
    var base := BeforeFirstDot(s);
    BeforeDotMeans(s);
    TrimEndMeans(base);
    dot, end := |base|, |TrimEnd(base)|;
    assert base == s[..dot] && TrimEnd(base) == s[..end];
    forall k | 0 <= k < dot ensures s[k] != '.' {
      assert base[k] == s[k] && base[k] in base;
    }
    assert forall k :: end <= k < dot ==> s[k] == base[k];
  }

  lemma Capitals(i: nat)
    requires i < |DEVICES|
    ensures forall k :: 0 <= k < |DEVICES[i]| ==> !(97 <= DEVICES[i][k] as int <= 122)
  {
  }

  // ---- Slugs ----

  /** The first 64 characters, each that is no letter, digit, `-` or `_` replaced. */
  predicate IsFolded(s: string, out: string) {
    && |out| == (if |s| <= 64 then |s| else 64)
    && forall i :: 0 <= i < |out| ==> out[i] == if Slugs(s[i]) then s[i] else '_'
  }

  /** The slug of a text is the folded text, after an underscore and cut to 64 again if that is a device name; the slug
      of nothing is the fallback. */
  lemma SlugMeans(s: string, fallback: string, out: string)
    requires IsFolded(s, out)
    ensures s == "" ==> Slugify(s, fallback) == fallback
    ensures s != "" && !IsReservedDevice(out) ==> Slugify(s, fallback) == out
    ensures s != "" && IsReservedDevice(out) ==>
              Slugify(s, fallback) == "_" + if |out| == 64 then out[..63] else out
  {
    var folded := seq(|s|, i requires 0 <= i < |s| => if IsSlugChar(s[i]) then s[i] else '_');
    assert Take(folded, 64) == out;
    assert |out| < 64 ==> out[..|out|] == out;
  }

  /** A slug of at most 64 characters that is no device is its own slug. */
  lemma SlugIsKept(s: string, fallback: string)
    requires 0 < |s| <= 64 && (forall c :: c in s ==> Slugs(c)) && !IsReservedDevice(s)
    ensures Slugify(s, fallback) == s
  {
    assert IsFolded(s, s);
    SlugMeans(s, fallback, s);
  }

  predicate HasLetterOrDigit(s: string) { exists c :: c in s && Slugs(c) && c != '-' && c != '_' }

  /** A session's file is named after its display name, if that is a slug with a letter or digit in it, and otherwise
      after its talker; either is cut to 56 characters. */
  lemma StemMeans(t: Target)
    requires 0 < |t.talker| <= 64 && (forall c :: c in t.talker ==> Slugs(c)) && !IsReservedDevice(t.talker)
    requires |t.displayName| <= 64 && (forall c :: c in t.displayName ==> Slugs(c)) && !IsReservedDevice(t.displayName)
    ensures var base := if HasLetterOrDigit(t.displayName) then t.displayName else t.talker;
            Stem(t) == if |base| <= 56 then base else base[..56]
  {
    SlugIsKept(t.talker, "session");
    if t.displayName != "" {
      SlugIsKept(t.displayName, "");
    }
    assert Slugify(t.displayName, "") == t.displayName;
    LetterMeans(t.displayName);
    var base := if HasLetterOrDigit(t.displayName) then t.displayName else t.talker;
    assert |base| <= 56 ==> base[..|base|] == base;
  }

  lemma LetterMeans(s: string)
    ensures HasLetterOrDigit(s) <==> exists i :: 0 <= i < |s| && IsAlnum(s[i])
  {
    if c :| c in s && Slugs(c) && c != '-' && c != '_' {
      var i :| 0 <= i < |s| && s[i] == c;
      assert IsAlnum(s[i]);
    }
    if i :| 0 <= i < |s| && IsAlnum(s[i]) {
      assert s[i] in s;
    }
  }

  /** The names tried for a stem are the stem itself and then, in order, the stem with `-2`, `-3` and so on. */
  lemma CandidateMeans(stem: string, k: nat)
    ensures Candidate(stem, 0) == stem
    ensures k > 0 ==>
              |Candidate(stem, k)| > |stem| + 1 && Candidate(stem, k)[..|stem|] == stem
              && Candidate(stem, k)[|stem|] == '-'
              && (forall c :: c in Candidate(stem, k)[|stem| + 1..] ==> Decimal.IsDigit(c))
              && Decimal.Value(Candidate(stem, k)[|stem| + 1..]) == k + 1
  {
    if k > 0 {
      Decimal.ValueOfRender(k + 1);
      assert Candidate(stem, k)[|stem| + 1..] == Decimal.Render(k + 1);
    }
  }

  /** A free name is given as it is; `index` never is. */
  lemma NameMeans(t: Target, taken: set<string>)
    ensures Fold(Stem(t)) !in taken && Fold(Stem(t)) != "index" ==> NameFor(t, taken) == Stem(t)
    ensures Fold(NameFor(t, taken)) != "index" && Fold(NameFor(t, taken)) !in taken
    ensures exists k: nat :: NameFor(t, taken) == Candidate(Stem(t), k)
              && forall j: nat :: j < k ==> Fold(Candidate(Stem(t), j)) in taken + {"index"}
  {
    FirstFreeIsFirst(Stem(t), taken + {"index"}, 0);
  }

  // ---- Path components ----

  /** A path component is safe exactly when it is neither empty, `.` or `..`, nor longer than 128 bytes, holds no
      separator, colon or control character, ends in no dot or space, and is no device. */
  lemma SafeMeans(s: string)
    ensures SafeSegment(s) <==>
              && 0 < Utf8Len(s) <= 128 && s != "." && s != ".." && !NamesDevice(s)
              && s[|s| - 1] != '.' && s[|s| - 1] != ' '
              && forall c :: c in s ==> c != '/' && c != '\\' && c != ':' && c as int >= 32 && !(127 <= c as int <= 159)
  {
    assert s != "" <==> Utf8Len(s) > 0;
    PlainMeans(s);
    DeviceMeans(s);
  }

  lemma PlainMeans(s: string)
    ensures (forall i :: 0 <= i < |s| ==> s[i] !in {'/', '\\', ':'} && !IsControl(s[i])) <==>
            forall c :: c in s ==> c != '/' && c != '\\' && c != ':' && c as int >= 32 && !(127 <= c as int <= 159)
  {
    if forall c :: c in s ==> c != '/' && c != '\\' && c != ':' && c as int >= 32 && !(127 <= c as int <= 159) {
      forall i | 0 <= i < |s| ensures s[i] !in {'/', '\\', ':'} && !IsControl(s[i]) {
        assert s[i] in s;
      }
    }
  }

  /** The bytes of a name are those of its characters: one, two, three or four each. */
  lemma {:induction false} BytesOfName(a: string, c: char)
    ensures Utf8Len("") == 0
    ensures Utf8Len(a + [c])
         == Utf8Len(a) + if c as int < 0x80 then 1 else if c as int < 0x800 then 2
                         else if c as int < 0x1_0000 then 3 else 4
  {
    if a == "" {
      assert "" + [c] == [c] && [c][1..] == "";
    } else {
      assert (a + [c])[0] == a[0] && (a + [c])[1..] == a[1..] + [c];
      BytesOfName(a[1..], c);
    }
  }
}

/** Path components and export file names (src/pathsafe.rs and `file_name_for` in src/export.rs). */
module Naming {
  import opened Chats
  import Decimal

  const MAX_SEGMENT := 128

  predicate IsAlnum(c: char) { '0' <= c <= '9' || 'a' <= c <= 'z' || 'A' <= c <= 'Z' }

  predicate IsSlugChar(c: char) { IsAlnum(c) || c == '-' || c == '_' }

  predicate IsSlug(s: string) { forall i :: 0 <= i < |s| ==> IsSlugChar(s[i]) }

  function Lower(c: char): char { if 'A' <= c <= 'Z' then (c as int + 32) as char else c }

  function Upper(c: char): char { if 'a' <= c <= 'z' then (c as int - 32) as char else c }

  /** Name folding of the directory: two names with one fold are one file. */
  function Fold(s: string): (f: string)
    ensures |f| == |s| && forall i :: 0 <= i < |s| ==> f[i] == Lower(s[i])
  {
    seq(|s|, i requires 0 <= i < |s| => Lower(s[i]))
  }

  lemma FoldConcat(a: string, b: string)
    ensures Fold(a + b) == Fold(a) + Fold(b)
  {
  }

  function ToUpper(s: string): string { seq(|s|, i requires 0 <= i < |s| => Upper(s[i])) }

  /** The part before the first `.`, or everything. */
  function BeforeFirstDot(s: string): string {
    if s == [] || s[0] == '.' then [] else [s[0]] + BeforeFirstDot(s[1..])
  }

  function TrimEnd(s: string): string {
    if s != [] && s[|s| - 1] in {' ', '.'} then TrimEnd(s[..|s| - 1]) else s
  }

  predicate IsReservedDevice(s: string) {
    var upper := ToUpper(TrimEnd(BeforeFirstDot(s)));
    || upper in {"CON", "PRN", "AUX", "NUL", "CONIN$", "CONOUT$"}
    || (|upper| == 4 && upper[..3] in {"COM", "LPT"} && '1' <= upper[3] <= '9')
  }

  function Utf8Len(s: string): nat {
    if s == [] then 0
    else (if s[0] < 0x80 as char then 1 else if s[0] < 0x800 as char then 2
          else if s[0] as int < 0x10000 then 3 else 4) + Utf8Len(s[1..])
  }

  predicate IsControl(c: char) { c < ' ' || 0x7f <= c as int <= 0x9f }

  predicate SafeSegment(s: string) {
    && s != ""
    && Utf8Len(s) <= MAX_SEGMENT
    && s != "." && s != ".."
    && (forall i :: 0 <= i < |s| ==> s[i] !in {'/', '\\', ':'} && !IsControl(s[i]))
    && s[|s| - 1] != '.' && s[|s| - 1] != ' '
    && !IsReservedDevice(s)
  }

  function Min(a: nat, b: nat): nat { if a < b then a else b }

  function Take(s: string, n: nat): string { s[..Min(n, |s|)] }

  function Slugify(s: string, fallback: string): string {
    var folded := seq(|s|, i requires 0 <= i < |s| => if IsSlugChar(s[i]) then s[i] else '_');
    var out := Take(folded, 64);
    if out == [] then fallback
    else if IsReservedDevice(out) then "_" + Take(out, 63)
    else out
  }

  /** What a slug guarantees: slug characters only and never a device name, whatever the input. */
  lemma SlugifyIsInert(s: string, fallback: string)
    requires fallback == "" || fallback == "session"
    ensures IsSlug(Slugify(s, fallback)) && |Slugify(s, fallback)| <= 64
    ensures !IsReservedDevice(Slugify(s, fallback))
    ensures Slugify(s, fallback) == "" ==> fallback == ""
  {
    var r := Slugify(s, fallback);
    if s == [] {
      LongSlugIsNoDevice(r);
    } else if r[0] == '_' {
      SlugHasNoDot(r);
      assert ToUpper(r)[0] == '_';
    }
  }

  lemma {:induction false} SlugHasNoDot(s: string)
    requires IsSlug(s)
    ensures BeforeFirstDot(s) == s && TrimEnd(s) == s
  {
    if s != [] {
      assert forall i :: 0 <= i < |s[1..]| ==> s[1..][i] == s[i + 1];
      SlugHasNoDot(s[1..]);
      assert s == [s[0]] + s[1..];
    }
  }

  lemma UpperOfSlug(s: string)
    requires IsSlug(s)
    ensures |ToUpper(s)| == |s| && forall i :: 0 <= i < |s| ==> ToUpper(s)[i] != '$'
    ensures forall i :: 0 <= i < |s| && s[i] == '-' ==> ToUpper(s)[i] == '-'
  {
    assert forall i :: 0 <= i < |s| ==> ToUpper(s)[i] == Upper(s[i]) && IsSlugChar(s[i]);
  }

  lemma NoDeviceName(u: string)
    requires forall i :: 0 <= i < |u| ==> u[i] != '$'
    requires |u| !in {3, 4} || exists i :: 0 <= i < |u| && u[i] == '-'
    ensures u !in {"CON", "PRN", "AUX", "NUL", "CONIN$", "CONOUT$"}
    ensures |u| == 4 && u[..3] in {"COM", "LPT"} ==> u[3] == '-'
  {
    if |u| == 6 { assert u[5] != '$'; }
    if |u| == 7 { assert u[6] != '$'; }
    if |u| == 4 {
      var i :| 0 <= i < |u| && u[i] == '-';
      assert i < 3 ==> u[..3][i] == '-';
    }
  }

  /** A slug is a device only when it is three or four characters long and has no hyphen. */
  lemma LongSlugIsNoDevice(s: string)
    requires IsSlug(s)
    requires |s| !in {3, 4} || '-' in s
    ensures !IsReservedDevice(s)
  {
    SlugHasNoDot(s);
    UpperOfSlug(s);
    var u := ToUpper(s);
    if '-' in s {
      var i :| 0 <= i < |s| && s[i] == '-';
      assert u[i] == '-';
    }
    NoDeviceName(u);
  }

  datatype Target = Target(talker: string, displayName: string, chatType: ChatType)

  function Stem(t: Target): string {
    var display := Slugify(t.displayName, "");
    var base := if exists i :: 0 <= i < |display| && IsAlnum(display[i]) then display
                else Slugify(t.talker, "session");
    var stem := Take(base, 56);
    if stem == [] then "session" else stem
  }

  /** The k-th name tried for a stem: the stem itself, then `stem-2`, `stem-3`, ... */
  function Candidate(stem: string, k: nat): string {
    if k == 0 then stem else stem + "-" + Decimal.Render(k + 1)
  }

  lemma CandidatesDiffer(stem: string, j: nat, k: nat)
    requires Fold(Candidate(stem, j)) == Fold(Candidate(stem, k))
    ensures j == k
  {
    if j != 0 && k != 0 {
      var a, b := Decimal.Render(j + 1), Decimal.Render(k + 1);
      assert Candidate(stem, j)[|stem| + 1..] == a && Candidate(stem, k)[|stem| + 1..] == b;
      assert |a| == |b|;
      forall i | 0 <= i < |a| ensures a[i] == b[i] {
        var at := |stem| + 1 + i;
        assert Candidate(stem, j)[at] == a[i] && Candidate(stem, k)[at] == b[i];
        assert a[i] in a && b[i] in b;
        assert Fold(Candidate(stem, j))[at] == Fold(Candidate(stem, k))[at];
      }
      assert a == b;
      Decimal.RenderInjective(j + 1, k + 1);
    }
  }

  /** Index of the first candidate at or after `k` whose fold is not in `taken`. */
  function FirstFree(stem: string, taken: set<string>, k: nat): nat
    decreases taken
  {
    var key := Fold(Candidate(stem, k));
    if key !in taken then k else FirstFree(stem, taken - {key}, k + 1)
  }

  lemma {:induction false} FirstFreeIsFirst(stem: string, taken: set<string>, k: nat)
    ensures k <= FirstFree(stem, taken, k) <= k + |taken|
    ensures Fold(Candidate(stem, FirstFree(stem, taken, k))) !in taken
    ensures forall j :: k <= j < FirstFree(stem, taken, k) ==> Fold(Candidate(stem, j)) in taken
    decreases taken
  {
    var key := Fold(Candidate(stem, k));
    if key in taken {
      FirstFreeIsFirst(stem, taken - {key}, k + 1);
      if Fold(Candidate(stem, FirstFree(stem, taken - {key}, k + 1))) == key {
        CandidatesDiffer(stem, FirstFree(stem, taken - {key}, k + 1), k);
      }
    }
  }

  /** The name a target is given against a set of folded names already taken. */
  function NameFor(t: Target, taken: set<string>): string {
    Candidate(Stem(t), FirstFree(Stem(t), taken + {"index"}, 0))
  }

  /** Up to the first free candidate, one is free only if it is that one. */
  lemma FreeIsFirst(stem: string, taken: set<string>, k: nat)
    requires k <= FirstFree(stem, taken, 0)
    ensures Fold(Candidate(stem, k)) in taken <==> k < FirstFree(stem, taken, 0)
  {
    FirstFreeIsFirst(stem, taken, 0);
  }

  lemma NextCandidate(stem: string, n: nat)
    requires n >= 2
    ensures Candidate(stem, n - 1) == stem + "-" + Decimal.Render(n)
  {
  }

  method FileNameFor(target: Target, taken: set<string>) returns (name: string, taken': set<string>)
    ensures name == NameFor(target, taken)
    ensures taken' == taken + {"index", Fold(name)}
    ensures Fold(name) !in taken && Fold(name) != "index"
  {
    var stem := Stem(target);
    taken' := taken + {"index"};
    ghost var first := FirstFree(stem, taken', 0);
    name := stem;
    var n := 2;
    FreeIsFirst(stem, taken', 0);
    while Fold(name) in taken'
      invariant n >= 2 && taken' == taken + {"index"}
      invariant name == Candidate(stem, n - 2) && n - 2 <= first
      invariant Fold(name) in taken' <==> n - 2 < first
      decreases first - (n - 2)
    {
      NextCandidate(stem, n);
      FreeIsFirst(stem, taken', n - 1);
      name := stem + "-" + Decimal.Render(n);
      n := n + 1;
    }
    taken' := taken' + {Fold(name)};
  }

  lemma StemIsSlug(t: Target)
    ensures IsSlug(Stem(t)) && 1 <= |Stem(t)| <= 56 && !IsReservedDevice(Stem(t))
  {
    var display := Slugify(t.displayName, "");
    SlugifyIsInert(t.displayName, "");
    SlugifyIsInert(t.talker, "session");
    var base := if exists i :: 0 <= i < |display| && IsAlnum(display[i]) then display
                else Slugify(t.talker, "session");
    TruncatedSlugIsNoDevice(base);
  }

  lemma TruncatedSlugIsNoDevice(s: string)
    requires IsSlug(s) && !IsReservedDevice(s)
    ensures IsSlug(Take(s, 56)) && !IsReservedDevice(Take(s, 56))
  {
    if |s| <= 56 {
      assert Take(s, 56) == s;
    } else {
      LongSlugIsNoDevice(Take(s, 56));
    }
  }

  lemma {:induction false} SlugUtf8Len(s: string)
    requires forall i :: 0 <= i < |s| ==> s[i] < 0x80 as char
    ensures Utf8Len(s) == |s|
  {
    if s != [] {
      assert forall i :: 0 <= i < |s[1..]| ==> s[1..][i] == s[i + 1];
      SlugUtf8Len(s[1..]);
    }
  }

  lemma {:induction false} BeforeFirstDotOf(s: string, rest: string)
    requires IsSlug(s)
    ensures BeforeFirstDot(s + "." + rest) == s
  {
    if s == [] {
      assert s + "." + rest == "." + rest;
    } else {
      assert forall i :: 0 <= i < |s[1..]| ==> s[1..][i] == s[i + 1];
      BeforeFirstDotOf(s[1..], rest);
      assert s + "." + rest == [s[0]] + (s[1..] + "." + rest);
    }
  }

  lemma {:induction false} CandidateIsSlug(stem: string, k: nat)
    requires IsSlug(stem) && 1 <= |stem| <= 56 && !IsReservedDevice(stem)
    requires k < 0x1_0000_0000
    ensures IsSlug(Candidate(stem, k)) && 1 <= |Candidate(stem, k)| <= 67
    ensures !IsReservedDevice(Candidate(stem, k))
  {
    if k > 0 {
      var digits := Decimal.Render(k + 1);
      assert Decimal.Pow10(4) == 10000;
      assert Decimal.Pow10(8) == 100000000;
      assert Decimal.Pow10(10) == 10000000000;
      Decimal.RenderLength(k + 1, 10);
      forall i | 0 <= i < |digits| ensures IsSlugChar(digits[i]) {
        assert digits[i] in digits;
      }
      assert Candidate(stem, k)[|stem|] == '-';
      LongSlugIsNoDevice(Candidate(stem, k));
    }
  }

  lemma SlugFileIsSafe(name: string, ext: string)
    requires IsSlug(name) && 1 <= |name| <= 67 && !IsReservedDevice(name)
    requires ext == "jsonl" || ext == "json"
    ensures SafeSegment(name + "." + ext)
  {
    var file := name + "." + ext;
    BeforeFirstDotOf(name, ext);
    SlugHasNoDot(name);
    assert file[|file| - 1] == ext[|ext| - 1];
    forall i | 0 <= i < |file|
      ensures file[i] !in {'/', '\\', ':'} && !IsControl(file[i]) && file[i] < 0x80 as char
    {
      if i < |name| { assert IsSlugChar(file[i]); }
    }
    SlugUtf8Len(file);
  }

  /** The name with either extension is one safe path component. The bound on `taken` is the range of
      the 32-bit suffix counter. */
  lemma NameForIsSafe(t: Target, taken: set<string>, ext: string)
    requires |taken| + 3 < 0x1_0000_0000
    requires ext == "jsonl" || ext == "json"
    ensures SafeSegment(NameFor(t, taken) + "." + ext)
  {
    StemIsSlug(t);
    FirstFreeIsFirst(Stem(t), taken + {"index"}, 0);
    assert "index" in taken ==> taken + {"index"} == taken;
    CandidateIsSlug(Stem(t), FirstFree(Stem(t), taken + {"index"}, 0));
    SlugFileIsSafe(NameFor(t, taken), ext);
  }

  /** Successive calls on one set give names no two of which fold together, none folding to a name
      taken before the first call. */
  function NamesFor(ts: seq<Target>, taken: set<string>): seq<string> {
    if ts == [] then []
    else
      var name := NameFor(ts[0], taken);
      [name] + NamesFor(ts[1..], taken + {"index", Fold(name)})
  }

  lemma {:induction false} NamesForAreDistinct(ts: seq<Target>, taken: set<string>)
    ensures |NamesFor(ts, taken)| == |ts|
    ensures forall i :: 0 <= i < |ts| ==>
              Fold(NamesFor(ts, taken)[i]) !in taken && Fold(NamesFor(ts, taken)[i]) != "index"
    ensures forall i, j :: 0 <= i < j < |ts| ==>
              Fold(NamesFor(ts, taken)[i]) != Fold(NamesFor(ts, taken)[j])
  {
    if ts != [] {
      var name := NameFor(ts[0], taken);
      FirstFreeIsFirst(Stem(ts[0]), taken + {"index"}, 0);
      NamesForAreDistinct(ts[1..], taken + {"index", Fold(name)});
    }
  }
}

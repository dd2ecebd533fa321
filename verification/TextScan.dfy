/** The budgeted heuristic scan for readable text (src/parser/mod.rs). */
module TextScan {
  import opened Optional
  import Trimming

  const MIN_TEXT_LEN := 2

  predicate IsHan(c: char) { '\U{4E00}' <= c <= '\U{9FA5}' }

  predicate IsAscii(c: char) { c <= '\U{7F}' }

  /** Characters a run may contain: common Han, ASCII, CJK punctuation, full-width forms, emoji. */
  predicate IsText(c: char) {
    || IsHan(c) || IsAscii(c)
    || '\U{3000}' <= c <= '\U{303F}' || '\U{FF00}' <= c <= '\U{FFEF}'
    || '\U{1F000}' <= c <= '\U{1FAFF}' || '\U{2600}' <= c <= '\U{27BF}'
  }

  predicate IsSpace(c: char) { c in {' ', '\t', '\n', '\U{0C}', '\r'} }

  predicate IsAlnum(c: char) { '0' <= c <= '9' || 'A' <= c <= 'Z' || 'a' <= c <= 'z' }

  /** ASCII letters, digits, punctuation and white space. */
  predicate IsPrintable(c: char) { '!' <= c <= '~' || IsSpace(c) }

  function Count(s: string, p: char -> bool): nat {
    if s == "" then 0 else (if p(s[0]) then 1 else 0) + Count(s[1..], p)
  }

  /** At least two characters, more than 60% of them common Han. */
  predicate IsChatText(s: string) { |s| >= MIN_TEXT_LEN && 5 * Count(s, IsHan) > 3 * |s| }

  // ---- Runs, without a budget ----

  /** The two scans: for Han text first, then for printable ASCII. */
  datatype Scan = HanText | AsciiText {
    predicate Starts(c: char) { if HanText? then IsHan(c) else IsPrintable(c) }

    predicate Admits(c: char) { if HanText? then IsText(c) else IsPrintable(c) }

    function Yield(run: string): string { if HanText? then run else Trimming.Trim(run) }

    predicate Accepts(run: string) {
      if HanText? then IsChatText(run) else Count(Trimming.Trim(run), IsAlnum) >= MIN_TEXT_LEN
    }
  }

  predicate Admitted(m: Scan, s: string, i: nat, j: nat)
    requires j <= |s|
  {
    forall k :: i <= k < j ==> m.Admits(s[k])
  }

  /** A run: from the first starting character of a stretch of admissible ones to the end of the stretch. */
  predicate IsRun(m: Scan, s: string, i: nat, j: nat) {
    && i < j <= |s| && m.Starts(s[i]) && Admitted(m, s, i, j) && (j < |s| ==> !m.Admits(s[j]))
    && forall k :: 0 <= k < i && m.Starts(s[k]) ==> !Admitted(m, s, k, i)
  }

  predicate IsCandidate(m: Scan, s: string, i: nat, j: nat) { IsRun(m, s, i, j) && m.Accepts(s[i..j]) }

  /** Longer, or as long and no later. */
  predicate AtLeast(m: Scan, s: string, i: nat, j: nat, a: nat, b: nat)
    requires i <= j <= |s| && a <= b <= |s|
  {
    var x, y := |m.Yield(s[i..j])|, |m.Yield(s[a..b])|;
    y < x || (y == x && i <= a)
  }

  /** The earliest of the longest candidates. */
  ghost predicate IsBest(m: Scan, s: string, i: nat, j: nat) {
    IsCandidate(m, s, i, j) && forall a: nat, b: nat :: IsCandidate(m, s, a, b) ==> AtLeast(m, s, i, j, a, b)
  }

  /** What a scan without a budget returns. */
  ghost predicate Finds(m: Scan, s: string, best: Option<(nat, nat)>) {
    match best
    case None => forall i: nat, j: nat :: !IsCandidate(m, s, i, j)
    case Some((i, j)) => IsBest(m, s, i, j)
  }

  // ---- The scans ----

  /** No stretch that an earlier starting character opened reaches past position `i`. */
  predicate Separate(m: Scan, s: string, i: nat)
    requires i <= |s|
  {
    i < |s| ==> forall k :: 0 <= k < i && m.Starts(s[k]) ==> !Admitted(m, s, k, i + 1)
  }

  lemma SeparateNext(m: Scan, s: string, i: nat)
    requires i < |s| && !m.Starts(s[i]) && Separate(m, s, i)
    ensures Separate(m, s, i + 1)
  {
    if i + 1 < |s| {
      forall k | 0 <= k < i + 1 && m.Starts(s[k]) ensures !Admitted(m, s, k, i + 2) {
        var b :| k <= b < i + 1 && !m.Admits(s[b]);
      }
    }
  }

  lemma SeparateAfter(m: Scan, s: string, j: nat)
    requires j <= |s| && (j < |s| ==> !m.Admits(s[j]))
    ensures Separate(m, s, j)
  {
  }

  lemma RunFound(m: Scan, s: string, i: nat, j: nat)
    requires i < j <= |s| && m.Starts(s[i]) && m.Admits(s[i]) && Separate(m, s, i)
    requires Admitted(m, s, i, j) && (j < |s| ==> !m.Admits(s[j]))
    ensures IsRun(m, s, i, j)
  {
    forall k | 0 <= k < i && m.Starts(s[k]) ensures !Admitted(m, s, k, i) {
      var b :| k <= b < i + 1 && !m.Admits(s[b]);
    }
  }

  lemma AdmittedPart(m: Scan, s: string, i: nat, a: nat, j: nat)
    requires a <= j <= |s| && Admitted(m, s, i, j)
    ensures Admitted(m, s, i, a)
  {
  }

  /** Runs do not overlap. */
  lemma OnlyRun(m: Scan, s: string, i: nat, j: nat, a: nat, b: nat)
    requires IsRun(m, s, i, j) && IsRun(m, s, a, b) && i <= a < j
    ensures a == i && b == j
  {
    AdmittedPart(m, s, i, a, j);
  }

  /** Among the candidates that start before `n`, the best. */
  ghost predicate BestBefore(m: Scan, s: string, n: nat, best: Option<(nat, nat)>) {
    match best
    case None => forall a: nat, b: nat :: IsCandidate(m, s, a, b) ==> n <= a
    case Some((i, j)) =>
      && IsCandidate(m, s, i, j) && i < n
      && forall a: nat, b: nat :: IsCandidate(m, s, a, b) && a < n ==> AtLeast(m, s, i, j, a, b)
  }

  lemma NoRunAt(m: Scan, s: string, i: nat, best: Option<(nat, nat)>)
    requires i < |s| && (!m.Starts(s[i]) || !m.Admits(s[i])) && BestBefore(m, s, i, best)
    ensures BestBefore(m, s, i + 1, best)
  {
    forall a: nat, b: nat | IsCandidate(m, s, a, b) ensures a != i {
      assert IsRun(m, s, a, b);
    }
  }

  function Better(m: Scan, s: string, was: Option<(nat, nat)>, i: nat, j: nat): Option<(nat, nat)>
    requires i <= j <= |s| && (was.Some? ==> was.value.0 <= was.value.1 <= |s|)
  {
    if m.Accepts(s[i..j])
       && (was.None? || |m.Yield(s[i..j])| > |m.Yield(s[was.value.0..was.value.1])|)
    then Some((i, j)) else was
  }

  lemma RunTaken(m: Scan, s: string, i: nat, j: nat, was: Option<(nat, nat)>)
    requires BestBefore(m, s, i, was) && IsRun(m, s, i, j)
    ensures BestBefore(m, s, j, Better(m, s, was, i, j))
  {
    var best := Better(m, s, was, i, j);
    forall a: nat, b: nat | IsCandidate(m, s, a, b) && a < j
      ensures best.Some? && AtLeast(m, s, best.value.0, best.value.1, a, b)
    {
      if a >= i {
        OnlyRun(m, s, i, j, a, b);
      }
    }
  }

  /** The extension of a run from `i`: one unit of budget per character looked at. */
  method Extend(m: Scan, s: string, i: nat, budget: nat) returns (j: nat, left: nat)
    requires i <= |s|
    ensures i <= j <= |s| && Admitted(m, s, i, j)
    ensures j - i <= budget - left <= j - i + 1 && (j == i && i < |s| && m.Admits(s[i]) ==> budget == 0)
    ensures budget > |s| - i ==> (j < |s| ==> !m.Admits(s[j]))
  {
    j, left := i, budget;
    while j < |s|
      invariant i <= j <= |s| && Admitted(m, s, i, j) && left == budget - (j - i)
    {
      if left == 0 {
        break;
      }
      left := left - 1;
      if !m.Admits(s[j]) {
        break;
      }
      j := j + 1;
    }
  }

  predicate Opens(m: Scan, c: char) { if m.HanText? then IsHan(c) else IsAscii(c) }

  /** `scan_from` and `scan_ascii`: what they return is a range of the text, trimmed by `Yield`. With three units
      per character or more, the budget is never what stops them. */
  method RunScan(m: Scan, s: string, budget: nat) returns (best: Option<(nat, nat)>, left: nat)
    ensures left <= budget <= left + 3 * |s|
    ensures budget > 3 * |s| ==> Finds(m, s, best)
  {
    best, left := None, budget;
    ghost var ample := budget > 3 * |s|;
    var i := 0;
    while i < |s|
      invariant 0 <= i <= |s| && left <= budget <= left + 3 * i
      invariant best.Some? ==> best.value.0 <= best.value.1 <= |s|
      invariant ample ==> Separate(m, s, i) && BestBefore(m, s, i, best)
      decreases |s| - i
    {
      if left == 0 {
        break;
      }
      left := left - 1;
      if !Opens(m, s[i]) {
        if ample {
          SeparateNext(m, s, i);
          NoRunAt(m, s, i, best);
        }
        i := i + 1;
        continue;
      }
      var j, rest := Extend(m, s, i, left);
      ghost var was := best;
      best := Better(m, s, best, i, j);
      if ample {
        Step(m, s, i, j, was);
      }
      i := if j > i then j else i + 1;
      left := rest;
    }
  }

  lemma Step(m: Scan, s: string, i: nat, j: nat, was: Option<(nat, nat)>)
    requires i < |s| && i <= j <= |s| && Opens(m, s[i]) && Separate(m, s, i) && BestBefore(m, s, i, was)
    requires Admitted(m, s, i, j) && (j < |s| ==> !m.Admits(s[j]))
    ensures var next := if j > i then j else i + 1;
            Separate(m, s, next) && BestBefore(m, s, next, Better(m, s, was, i, j))
  {
    if j > i {
      assert m.Admits(s[i]);
      RunFound(m, s, i, j);
      SeparateAfter(m, s, j);
      RunTaken(m, s, i, j, was);
    } else {
      assert !m.Admits(s[i]) && s[i..j] == "";
      SeparateNext(m, s, i);
      NoRunAt(m, s, i, was);
    }
  }

  /** The heuristic text of a blob: the two scans share one budget of fifty units per byte. A text decoded from
      a blob has no more characters than the blob has bytes. */
  method HeuristicText(s: string, bytes: nat) returns (text: Option<string>)
    requires |s| <= bytes
    ensures match text
      case Some(t) => exists m: Scan, i: nat, j: nat ::
                        IsBest(m, s, i, j) && t == m.Yield(s[i..j]) && (m.AsciiText? ==> Finds(HanText, s, None))
      case None => Finds(HanText, s, None) && Finds(AsciiText, s, None)
  {
    if s == "" {
      assert Finds(HanText, s, None) && Finds(AsciiText, s, None);
      return None;
    }
    var han, left := RunScan(HanText, s, bytes * 50);
    if han.Some? {
      var (i, j) := han.value;
      assert IsBest(HanText, s, i, j);
      return Some(HanText.Yield(s[i..j]));
    }
    var ascii, _ := RunScan(AsciiText, s, left);
    if ascii.Some? {
      var (i, j) := ascii.value;
      assert IsBest(AsciiText, s, i, j);
      return Some(AsciiText.Yield(s[i..j]));
    }
    return None;
  }
}

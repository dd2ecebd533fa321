/** Equalities of sequences, one by one. */
module Sequences {
  lemma Join<T>(a: seq<T>, b: seq<T>, c: seq<T>)
    ensures a + (b + c) == a + b + c
  {
  }

  lemma Nothing<T>(a: seq<T>)
    ensures a + [] == a && [] + a == a
  {
  }

  lemma Sole<T>(x: T)
    ensures [x][0] == x && [x][1..] == [] && [x][..0] == []
  {
  }

  lemma HeadRest<T>(s: seq<T>)
    requires s != []
    ensures s == [s[0]] + s[1..]
  {
  }

  lemma DropNext<T>(s: seq<T>, i: nat)
    requires i < |s|
    ensures s[i..] != [] && s[i..][0] == s[i] && s[i..][1..] == s[i + 1..]
  {
  }

  lemma TakeNext<T>(s: seq<T>, i: nat)
    requires i < |s|
    ensures s[..i + 1] == s[..i] + [s[i]]
  {
  }

  lemma TakeAll<T>(s: seq<T>)
    ensures s[..|s|] == s && s[..0] == []
  {
  }

  lemma DropAppend<T>(xs: seq<T>, ys: seq<T>, n: nat)
    requires n <= |xs|
    ensures (xs + ys)[n..] == xs[n..] + ys
  {
  }

  lemma PrefixGrows<T>(a: seq<T>, b: seq<T>, c: seq<T>)
    requires a <= b
    ensures a <= b + c
  {
  }

  lemma PrefixOfSlice<T>(s: seq<T>, i: nat, e: nat, out: seq<T>)
    requires i <= e <= |s| && out <= s[i..e]
    ensures i + |out| <= |s| && out == s[i..i + |out|]
  {
  }

  lemma CutThree<T>(p: seq<T>, a: seq<T>, b: seq<T>)
    ensures var all := p + (a + b);
      && all[..|p|] == p && all[|p|..|p| + |a|] == a && all[|p| + |a|..] == b && |all| == |p| + |a| + |b|
  {
  }

  lemma PrefixJoins<T>(a: seq<T>, b: seq<T>, n: nat)
    requires n <= |a| && n <= |b| && a[..n] == b[..n] && a[n..] <= b[n..]
    ensures a <= b
  {
    assert a == a[..n] + a[n..] && b == b[..n] + b[n..];
  }
}

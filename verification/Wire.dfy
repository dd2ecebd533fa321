/** The wire-format reader of message bodies (src/parser/proto.rs): base-128 varints and message structure of
    the Protocol Buffers encoding. What is left to read is a suffix of the buffer. */
module Wire {
  import opened Octets
  import opened Optional

  const U64 := 0x1_0000_0000_0000_0000

  /** At most `left` bytes of seven bits, least significant first; what was read is consumed even on failure. */
  function Base128(rest: Bytes, left: nat): (Option<nat>, Bytes) {
    if left == 0 || rest == [] then (None, rest)
    else if rest[0] < 128 then (Some(rest[0]), rest[1..])
    else
      var (v, after) := Base128(rest[1..], left - 1);
      (if v.Some? then Some(rest[0] - 128 + 128 * v.value) else None, after)
  }

  /** Bits above the 64th are shifted out. */
  function ReadVarint(rest: Bytes): (Option<nat>, Bytes) {
    var (v, after) := Base128(rest, 10);
    (if v.Some? then Some(v.value % U64) else None, after)
  }

  function ReadTag(rest: Bytes): (Option<(nat, nat)>, Bytes) {
    var (tag, after) := ReadVarint(rest);
    (if tag.Some? then Some((tag.value / 8, tag.value % 8)) else None, after)
  }

  function ReadBytes(rest: Bytes, len: nat): (Option<Bytes>, Bytes) {
    if len <= |rest| then (Some(rest[..len]), rest[len..]) else (None, rest)
  }

  function ReadLen(rest: Bytes): (Option<Bytes>, Bytes) {
    var (len, after) := ReadVarint(rest);
    if len.Some? then ReadBytes(after, len.value) else (None, after)
  }

  function Skip(rest: Bytes, wire: nat): (bool, Bytes) {
    if wire == 0 then (ReadVarint(rest).0.Some?, ReadVarint(rest).1)
    else if wire == 1 then (ReadBytes(rest, 8).0.Some?, ReadBytes(rest, 8).1)
    else if wire == 2 then (ReadLen(rest).0.Some?, ReadLen(rest).1)
    else if wire == 5 then (ReadBytes(rest, 4).0.Some?, ReadBytes(rest, 4).1)
    else (false, rest)
  }

  // ---- Reading consumes ----

  lemma {:induction false} VarintConsumes(rest: Bytes, left: nat)
    ensures |Base128(rest, left).1| <= |rest|
    ensures Base128(rest, left).0.Some? ==> |Base128(rest, left).1| < |rest|
  {
    if left != 0 && rest != [] {
      VarintConsumes(rest[1..], left - 1);
    }
  }

  lemma TagConsumes(rest: Bytes)
    ensures |ReadTag(rest).1| <= |rest|
    ensures ReadTag(rest).0.Some? ==> |ReadTag(rest).1| < |rest|
  {
    VarintConsumes(rest, 10);
  }

  lemma LenConsumes(rest: Bytes)
    ensures |ReadLen(rest).1| <= |rest|
  {
    VarintConsumes(rest, 10);
  }

  lemma SkipConsumes(rest: Bytes, wire: nat)
    ensures |Skip(rest, wire).1| <= |rest|
  {
    VarintConsumes(rest, 10);
    LenConsumes(rest);
  }

  class Cursor {
    const buf: Bytes
    var pos: nat

    constructor (buf: Bytes)
      ensures this.buf == buf && pos == 0
    {
      this.buf, pos := buf, 0;
    }

    ghost predicate Valid() reads this { pos <= |buf| }

    function Rest(): Bytes
      requires Valid()
      reads this
    {
      buf[pos..]
    }

    method NextVarint() returns (v: Option<nat>)
      requires Valid()
      modifies this
      ensures Valid() && (v, Rest()) == ReadVarint(old(Rest()))
    {
      var acc: nat, shift: nat := 0, 1;
      ghost var start := Rest();
      for i := 0 to 10
        invariant Valid() && shift == Shift(i) && acc < shift
        invariant Onward(start, Rest(), 10 - i, acc, shift)
      {
        if pos >= |buf| {
          return None;
        }
        var b := buf[pos];
        ghost var rest := Rest();
        pos := pos + 1;
        assert rest[0] == b && rest[1..] == Rest();
        if b < 128 {
          // The seven bits lie above those of `acc`, so setting them adds them.
          LastByte(start, rest, 10 - i, acc, shift);
          Wraps(acc, b, i);
          return Some(acc + shift * b % U64);
        }
        NextByte(start, rest, 10 - i, acc, shift);
        Below(acc, shift, b - 128);
        acc, shift := acc + shift * (b - 128), shift * 128;
      }
      return None;
    }

    method NextTag() returns (t: Option<(nat, nat)>)
      requires Valid()
      modifies this
      ensures Valid() && (t, Rest()) == ReadTag(old(Rest()))
    {
      var tag := NextVarint();
      return if tag.Some? then Some((tag.value / 8, tag.value % 8)) else None;
    }

    method NextBytes(len: nat) returns (out: Option<Bytes>)
      requires Valid()
      modifies this
      ensures Valid() && (out, Rest()) == ReadBytes(old(Rest()), len)
    {
      if pos + len > |buf| {
        return None;
      }
      out := Some(buf[pos..pos + len]);
      assert buf[pos..][..len] == buf[pos..pos + len] && buf[pos..][len..] == buf[pos + len..];
      pos := pos + len;
    }

    method NextLen() returns (out: Option<Bytes>)
      requires Valid()
      modifies this
      ensures Valid() && (out, Rest()) == ReadLen(old(Rest()))
    {
      var len := NextVarint();
      if len.None? {
        return None;
      }
      out := NextBytes(len.value);
    }

    method SkipValue(wire: nat) returns (ok: bool)
      requires Valid()
      modifies this
      ensures Valid() && (ok, Rest()) == Skip(old(Rest()), wire)
    {
      if wire == 0 {
        var v := NextVarint();
        return v.Some?;
      } else if wire == 1 {
        var b := NextBytes(8);
        return b.Some?;
      } else if wire == 2 {
        var b := NextLen();
        return b.Some?;
      } else if wire == 5 {
        var b := NextBytes(4);
        return b.Some?;
      }
      return false;
    }
  }

  function Shift(i: nat): (n: nat)
    ensures n >= 1
  {
    if i == 0 then 1 else 128 * Shift(i - 1)
  }

  /** Having read `acc` below `shift`, what is left of the number is the one that starts at `rest`. */
  ghost predicate Onward(start: Bytes, rest: Bytes, left: nat, acc: nat, shift: nat) {
    var (all, after) := Base128(start, 10);
    var (v, end) := Base128(rest, left);
    after == end && all == if v.Some? then Some(acc + shift * v.value) else None
  }

  lemma NextByte(start: Bytes, rest: Bytes, left: nat, acc: nat, shift: nat)
    requires Onward(start, rest, left, acc, shift) && left > 0 && rest != [] && rest[0] >= 128
    ensures Onward(start, rest[1..], left - 1, acc + shift * (rest[0] - 128), shift * 128)
  {
    var v := Base128(rest[1..], left - 1).0;
    if v.Some? {
      Distributes(acc, shift, rest[0] - 128, v.value);
    }
  }

  lemma LastByte(start: Bytes, rest: Bytes, left: nat, acc: nat, shift: nat)
    requires Onward(start, rest, left, acc, shift) && left > 0 && rest != [] && rest[0] < 128
    ensures Base128(start, 10).0 == Some(acc + shift * rest[0]) && Base128(start, 10).1 == rest[1..]
  {
  }

  lemma Distributes(acc: nat, shift: nat, low: nat, rest: nat)
    ensures acc + shift * (low + 128 * rest) == (acc + shift * low) + (shift * 128) * rest
  {
  }

  lemma Below(acc: nat, shift: nat, low: nat)
    requires acc < shift && low < 128
    ensures 0 <= acc + shift * low < shift * 128
  {
    assert 0 <= shift * low && 0 <= shift * (127 - low);
    assert shift * 127 == shift * low + shift * (127 - low);
  }

  /** Only the tenth byte can reach past 64 bits, and what is below it has fewer than 64. */
  lemma Wraps(acc: nat, b: Byte, i: nat)
    requires i < 10 && acc < Shift(i) && b < 128
    ensures acc + Shift(i) * b % U64 == (acc + Shift(i) * b) % U64
  {
    ShiftNine();
    if i < 9 {
      ShiftGrows(i + 1, 9);
      WrapsLow(acc, Shift(i), b);
    } else {
      WrapsTop(acc, b);
    }
  }

  lemma ShiftNine()
    ensures Shift(9) == HIGH
  {
  }

  lemma WrapsLow(acc: nat, shift: nat, b: Byte)
    requires acc < shift && b < 128 && 128 * shift <= HIGH
    ensures acc + shift * b % U64 == (acc + shift * b) % U64
  {
    Below(acc, shift, b);
    var high := shift * b;
    assert high + acc < U64;
    SmallMod(high);
    SmallMod(acc + high);
  }

  const HIGH := 0x8000_0000_0000_0000

  lemma WrapsTop(acc: nat, b: Byte)
    requires acc < HIGH
    ensures acc + HIGH * b % U64 == (acc + HIGH * b) % U64
  {
    var k, odd := b / 2, HIGH * (b % 2);
    assert HIGH * b == U64 * k + odd;
    Multiple(odd, k);
    Multiple(acc + odd, k);
  }

  lemma SmallMod(x: nat)
    requires x < U64
    ensures x % U64 == x
  {
  }

  lemma Multiple(x: nat, k: nat)
    requires x < U64
    ensures (U64 * k + x) % U64 == x
  {
  }

  lemma {:induction false} ShiftGrows(i: nat, j: nat)
    requires i <= j
    ensures Shift(i) <= Shift(j)
  {
    if i < j {
      ShiftGrows(i, j - 1);
    }
  }

  // ---- The encoder ----

  function EncVarint(v: nat): Bytes {
    if v < 128 then [v] else [v % 128 + 128] + EncVarint(v / 128)
  }

  method EncodeVarint(v: nat) returns (out: Bytes)
    ensures out == EncVarint(v)
  {
    out := [];
    var left := v;
    while left >= 128
      invariant out + EncVarint(left) == EncVarint(v)
    {
      out := out + [left % 128 + 128];
      left := left / 128;
    }
    out := out + [left];
  }

  lemma {:induction false} VarintOfEnc(v: nat, n: nat, suffix: Bytes)
    requires n >= 1 && v < Shift(n)
    ensures Base128(EncVarint(v) + suffix, n) == (Some(v), suffix)
  {
    var all := EncVarint(v) + suffix;
    if v < 128 {
      assert all[1..] == suffix;
    } else {
      assert v / 128 < Shift(n - 1);
      VarintOfEnc(v / 128, n - 1, suffix);
      assert all[1..] == EncVarint(v / 128) + suffix;
    }
  }

  /** Every u64 is read back from its encoding, consuming exactly its bytes before any suffix. */
  lemma VarintRoundTrip(v: nat, suffix: Bytes)
    requires v < U64
    ensures ReadVarint(EncVarint(v) + suffix) == (Some(v), suffix)
  {
    assert Shift(10) == 0x40_0000_0000_0000_0000;
    VarintOfEnc(v, 10, suffix);
  }

  // ---- A longer buffer reads the same ----

  lemma {:induction false} VarintExtends(rest: Bytes, more: Bytes, left: nat)
    requires Base128(rest, left).0.Some?
    ensures Base128(rest + more, left) == (Base128(rest, left).0, Base128(rest, left).1 + more)
  {
    assert (rest + more)[1..] == rest[1..] + more;
    if rest[0] >= 128 {
      VarintExtends(rest[1..], more, left - 1);
    }
  }

  lemma TagExtends(rest: Bytes, more: Bytes)
    requires ReadTag(rest).0.Some?
    ensures ReadTag(rest + more) == (ReadTag(rest).0, ReadTag(rest).1 + more)
  {
    VarintExtends(rest, more, 10);
  }

  lemma BytesExtends(rest: Bytes, more: Bytes, len: nat)
    requires len <= |rest|
    ensures ReadBytes(rest + more, len) == (Some(rest[..len]), rest[len..] + more)
  {
    assert (rest + more)[..len] == rest[..len] && (rest + more)[len..] == rest[len..] + more;
  }

  lemma LenExtends(rest: Bytes, more: Bytes)
    requires ReadLen(rest).0.Some?
    ensures ReadLen(rest + more) == (ReadLen(rest).0, ReadLen(rest).1 + more)
  {
    VarintExtends(rest, more, 10);
    var (len, after) := ReadVarint(rest);
    BytesExtends(after, more, len.value);
  }

  lemma SkipExtends(rest: Bytes, more: Bytes, wire: nat)
    requires Skip(rest, wire).0
    ensures Skip(rest + more, wire) == (true, Skip(rest, wire).1 + more)
  {
    if wire == 0 {
      VarintExtends(rest, more, 10);
    } else if wire == 1 {
      BytesExtends(rest, more, 8);
    } else if wire == 2 {
      LenExtends(rest, more);
    } else {
      BytesExtends(rest, more, 4);
    }
  }
}

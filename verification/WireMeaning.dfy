/** The numbers on the wire, byte by byte (the Protocol Buffers encoding, base-128 varints). */
module WireMeaning {
  import opened Octets
  import opened Optional
  import opened Wire
  import Sequences

  /** The low seven bits of each byte, the first byte's lowest. */
  function Value(digits: Bytes): nat {
    if digits == [] then 0 else digits[0] % 128 + 128 * Value(digits[1..])
  }

  predicate GoesOn(digits: Bytes) { forall i :: 0 <= i < |digits| ==> digits[i] >= 128 }

  lemma Behind(run: Bytes, rest: Bytes)
    requires run != []
    ensures (run + rest)[0] == run[0] && (run + rest)[1..] == run[1..] + rest
  {
  }

  lemma {:induction false} RunReads(run: Bytes, last: Byte, rest: Bytes, left: nat)
    requires GoesOn(run) && last < 128 && |run| < left
    ensures Base128(run + [last] + rest, left) == (Some(Value(run + [last])), rest)
  {
    var all := run + [last] + rest;
    if run == [] {
      assert all[0] == last && all[1..] == rest;
      assert ([] + [last])[1..] == [];
    } else {
      Behind(run, [last] + rest);
      Behind(run, [last]);
      Sequences.Join(run, [last], rest);
      Sequences.Join(run[1..], [last], rest);
      RunReads(run[1..], last, rest, left - 1);
    }
  }

  /** Up to nine bytes of 128 and more and one below are one number: their low seven bits, the first byte's lowest, cut
      to 64 bits. What follows stays. */
  lemma VarintMeans(run: Bytes, last: Byte, rest: Bytes)
    requires GoesOn(run) && |run| <= 9 && last < 128
    ensures var (v, after) := ReadVarint(run + [last] + rest);
            v.Some? && v.value == Value(run + [last]) % 0x1_0000_0000_0000_0000 && after == rest
  {
    RunReads(run, last, rest, 10);
  }

  lemma {:induction false} RunFails(run: Bytes, rest: Bytes, left: nat)
    requires GoesOn(run) && (if rest == [] then |run| <= left else |run| == left)
    ensures Base128(run + rest, left) == (None, rest)
  {
    if run == [] {
      assert run + rest == rest;
    } else {
      Behind(run, rest);
      RunFails(run[1..], rest, left - 1);
    }
  }

  /** Ten bytes that all go on are no number, and neither is a buffer that ends within one; what was read is gone. */
  lemma NoVarint(run: Bytes, rest: Bytes)
    requires GoesOn(run) && (|run| == 10 || (|run| < 10 && rest == []))
    ensures ReadVarint(run + rest) == (None, rest)
  {
    RunFails(run, rest, 10);
  }

  /** A tag is a number: its low three bits the wire type, the rest the field. */
  lemma TagMeans(run: Bytes, last: Byte, rest: Bytes)
    requires GoesOn(run) && |run| <= 9 && last < 128
    ensures var v := Value(run + [last]) % 0x1_0000_0000_0000_0000;
      var (tag, after) := ReadTag(run + [last] + rest);
      tag.Some? && tag.value.1 < 8 && v == 8 * tag.value.0 + tag.value.1 && after == rest
  {
    VarintMeans(run, last, rest);
  }

  /** Every byte but the last goes on, and together they are the number. */
  predicate Encodes(e: Bytes, v: nat) {
    e != [] && Value(e) == v && GoesOn(e[..|e| - 1]) && e[|e| - 1] < 128 && (v > 0 ==> e[|e| - 1] > 0)
  }

  lemma OneInFront(low: nat, more: Bytes, high: nat)
    requires low < 128 && Encodes(more, high) && high > 0
    ensures Encodes([low + 128] + more, low + 128 * high)
  {
    var e := [low + 128] + more;
    assert e[1..] == more && e[..|e| - 1] == [low + 128] + more[..|more| - 1];
    assert (low + 128) % 128 == low;
  }

  /** The encoding of a number encodes it, without a zero at its end. */
  lemma {:induction false} EncodingMeans(v: nat)
    ensures Encodes(EncVarint(v), v)
  {
    if v >= 128 {
      EncodingMeans(v / 128);
      OneInFront(v % 128, EncVarint(v / 128), v / 128);
    } else {
      assert [v][1..] == [];
    }
  }

  /** Skipping takes eight bytes of wire type 1 and four of wire type 5, if they are there, a number of type 0, and of
      type 2 a number and as many bytes as it says. */
  lemma SkipMeans(rest: Bytes)
    ensures Skip(rest, 1).0 <==> |rest| >= 8
    ensures Skip(rest, 5).0 <==> |rest| >= 4
    ensures |rest| >= 8 ==> Skip(rest, 1).1 == rest[8..]
    ensures |rest| >= 4 ==> Skip(rest, 5).1 == rest[4..]
    ensures Skip(rest, 0).1 == ReadVarint(rest).1 && (Skip(rest, 0).0 <==> ReadVarint(rest).0.Some?)
    ensures var (n, after) := ReadVarint(rest);
      && (Skip(rest, 2).0 <==> n.Some? && n.value <= |after|)
      && (n.Some? && n.value <= |after| ==> Skip(rest, 2).1 == after[n.value..])
  {
  }
}

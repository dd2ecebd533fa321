/** What an encoded message body says, by the numbers of its fields. */
module MessageMeaning {
  import opened Octets
  import opened Optional
  import opened Wire
  import opened MessageBody

  /** The last number given under field `k` is `v`. */
  predicate NumberIs(xs: seq<Field>, k: nat, v: Option<nat>) {
    && (v.None? <==> forall i :: 0 <= i < |xs| ==> !(xs[i].Number? && xs[i].k == k))
    && (v.Some? ==> exists i :: 0 <= i < |xs| && xs[i] == Number(k, v.value)
                                && forall j :: i < j < |xs| ==> !(xs[j].Number? && xs[j].k == k))
  }

  /** The last byte string given under field `k` is `b`. */
  predicate BlobIs(xs: seq<Field>, k: nat, b: Option<Bytes>) {
    && (b.None? <==> forall i :: 0 <= i < |xs| ==> !(xs[i].Blob? && xs[i].k == k))
    && (b.Some? ==> exists i :: 0 <= i < |xs| && xs[i] == Blob(k, b.value)
                                && forall j :: i < j < |xs| ==> !(xs[j].Blob? && xs[j].k == k))
  }

  predicate Says(b: Option<Bytes>, t: string, utf8: Utf8) { b.Some? && utf8(b.value) == Some(t) }

  lemma {:induction false} NumberMeans(xs: seq<Field>, k: nat)
    ensures NumberIs(xs, k, LastNumber(xs, k))
  {
    if xs != [] {
      var rest := xs[1..];
      NumberMeans(rest, k);
      assert forall i :: 0 <= i < |rest| ==> rest[i] == xs[i + 1];
      assert forall i :: 1 <= i < |xs| ==> xs[i] == rest[i - 1];
      if LastNumber(rest, k).Some? {
        var i :| 0 <= i < |rest| && rest[i] == Number(k, LastNumber(rest, k).value)
                 && forall j :: i < j < |rest| ==> !(rest[j].Number? && rest[j].k == k);
        assert xs[i + 1] == rest[i];
      } else if xs[0].Number? && xs[0].k == k {
        assert xs[0] == Number(k, LastNumber(xs, k).value);
      }
    }
  }

  lemma {:induction false} BlobMeans(xs: seq<Field>, k: nat)
    ensures BlobIs(xs, k, LastBlob(xs, k))
  {
    if xs != [] {
      var rest := xs[1..];
      BlobMeans(rest, k);
      assert forall i :: 0 <= i < |rest| ==> rest[i] == xs[i + 1];
      assert forall i :: 1 <= i < |xs| ==> xs[i] == rest[i - 1];
      if LastBlob(rest, k).Some? {
        var i :| 0 <= i < |rest| && rest[i] == Blob(k, LastBlob(rest, k).value)
                 && forall j :: i < j < |rest| ==> !(rest[j].Blob? && rest[j].k == k);
        assert xs[i + 1] == rest[i];
      } else if xs[0].Blob? && xs[0].k == k {
        assert xs[0] == Blob(k, LastBlob(xs, k).value);
      }
    }
  }

  lemma NumberIsLast(xs: seq<Field>, k: nat, v: Option<nat>)
    requires NumberIs(xs, k, v)
    ensures v == LastNumber(xs, k)
  {
    NumberMeans(xs, k);
  }

  lemma BlobIsLast(xs: seq<Field>, k: nat, b: Option<Bytes>)
    requires BlobIs(xs, k, b)
    ensures b == LastBlob(xs, k)
  {
    BlobMeans(xs, k);
  }

  /** What a segment's fields spell is what is read back from their encoding. */
  lemma ReadsBack(xs: seq<Field>, utf8: Utf8)
    requires forall i :: 0 <= i < |xs| ==> Encodable(xs[i])
    ensures SegmentOf(Walk(NOTHING, EncAll(xs)), utf8) == Spelling(xs, utf8)
  {
    WalkOfEnc(NOTHING, xs);
    SegmentOfFold(xs, utf8);
  }

  /** The numbers of a segment: what was given last under 45001, 45002 and 45003. */
  lemma NumbersSay(xs: seq<Field>, utf8: Utf8)
    requires forall i :: 0 <= i < |xs| ==> Encodable(xs[i])
    ensures var s := SegmentOf(Walk(NOTHING, EncAll(xs)), utf8);
            NumberIs(xs, 45001, s.segId) && NumberIs(xs, 45002, s.contentType) && NumberIs(xs, 45003, s.subtype)
  {
    ReadsBack(xs, utf8);
    NumberMeans(xs, 45001);
    NumberMeans(xs, 45002);
    NumberMeans(xs, 45003);
  }

  lemma TextFromSays(kind: Option<nat>, own: Option<Bytes>, emoji: Option<Bytes>, utf8: Utf8, t: string)
    ensures TextFrom(kind, own, emoji, utf8) == Some(t) <==>
              && (kind == Some(1) || kind == Some(6)) && t != ""
              && (Says(own, t, utf8) || (Says(emoji, t, utf8) && forall u :: Says(own, u, utf8) ==> u == ""))
  {
    assert own.Some? && utf8(own.value).Some? ==> Says(own, utf8(own.value).value, utf8);
  }

  /** A segment has a text exactly when its type is 1 or 6 and it was given a non-empty one: the one under 45101, or,
      where that is missing, unreadable or empty, the one under 47602. */
  lemma TextSays(xs: seq<Field>, kind: Option<nat>, own: Option<Bytes>, emoji: Option<Bytes>, utf8: Utf8, t: string)
    requires forall i :: 0 <= i < |xs| ==> Encodable(xs[i])
    requires NumberIs(xs, 45002, kind) && BlobIs(xs, 45101, own) && BlobIs(xs, 47602, emoji)
    ensures SegmentOf(Walk(NOTHING, EncAll(xs)), utf8).text == Some(t) <==>
              && (kind == Some(1) || kind == Some(6)) && t != ""
              && (Says(own, t, utf8) || (Says(emoji, t, utf8) && forall u :: Says(own, u, utf8) ==> u == ""))
  {
    ReadsBack(xs, utf8);
    NumberIsLast(xs, 45002, kind);
    BlobIsLast(xs, 45101, own);
    BlobIsLast(xs, 47602, emoji);
    TextFromSays(kind, own, emoji, utf8, t);
  }

  /** `n` is the number `v` cut to a signed integer of the given modulus. */
  predicate CutTo(v: nat, n: int, modulus: int) {
    modulus > 0 && -modulus <= 2 * n < modulus && (v - n) % modulus == 0
  }

  predicate IsCut(v: Option<nat>, n: Option<int>, modulus: int) {
    (n.Some? <==> v.Some?) && (n.Some? ==> CutTo(v.value, n.value, modulus))
  }

  lemma CutsRight(v: nat, modulus: int, half: int)
    requires modulus == 2 * half && half > 0
    ensures var w := v % modulus; CutTo(v, if w >= half then w - modulus else w, modulus)
  {
    var w := v % modulus;
    assert v - w == modulus * (v / modulus);
    WholeMultiple(modulus, v / modulus);
    WholeMultiple(modulus, v / modulus + 1);
    assert modulus * (v / modulus + 1) == modulus * (v / modulus) + modulus;
  }

  lemma WholeMultiple(m: int, k: int)
    requires m > 0
    ensures (m * k) % m == 0
  {
    var q, r := m * k / m, m * k % m;
    var d := k - q;
    assert m * d == m * k - m * q == r;
    if d >= 1 {
      AtLeast(m, d);
    } else if d <= -1 {
      AtLeast(m, -d);
    }
  }

  lemma AtLeast(m: int, d: int)
    requires m > 0 && d >= 1
    ensures m * d >= m
  {
    assert m * d == m * (d - 1) + m;
  }

  lemma CastCuts(v: Option<nat>)
    ensures IsCut(v, Cast(v, AsI64), 0x1_0000_0000_0000_0000)
    ensures IsCut(v, Cast(v, AsI32), 0x1_0000_0000)
  {
    if v.Some? {
      CutsRight(v.value, 0x1_0000_0000_0000_0000, 0x8000_0000_0000_0000);
      CutsRight(v.value, 0x1_0000_0000, 0x8000_0000);
    }
  }

  predicate Readable(b: Option<Bytes>, utf8: Utf8) { b.Some? && utf8(b.value).Some? }

  /** A readable URL: a non-empty byte string under one of the four URL numbers that is text. */
  predicate HasUrl(xs: seq<Field>, utf8: Utf8) {
    exists i :: 0 <= i < |xs| && xs[i].Blob? && xs[i].k in {45802, 45803, 45804, 45816} && xs[i].data != []
                && utf8(xs[i].data).Some?
  }

  /** The media fields of a segment are given under these numbers. */
  datatype Given = Given(uuid: Option<Bytes>, fileName: Option<Bytes>, md5: Option<Bytes>, path: Option<Bytes>,
                         size: Option<nat>, width: Option<nat>, height: Option<nat>)

  predicate GivenIs(xs: seq<Field>, g: Given) {
    && BlobIs(xs, 45503, g.uuid) && BlobIs(xs, 45402, g.fileName) && BlobIs(xs, 45424, g.md5)
    && BlobIs(xs, 45812, g.path)
    && NumberIs(xs, 45405, g.size) && NumberIs(xs, 45411, g.width) && NumberIs(xs, 45412, g.height)
  }

  lemma GivenIsLast(xs: seq<Field>, g: Given)
    requires GivenIs(xs, g)
    ensures g == Given(LastBlob(xs, UUID), LastBlob(xs, FILE_NAME), LastBlob(xs, MD5_HEX), LastBlob(xs, LOCAL_PATH),
                       LastNumber(xs, SIZE), LastNumber(xs, WIDTH), LastNumber(xs, HEIGHT))
  {
    BlobIsLast(xs, 45503, g.uuid);
    BlobIsLast(xs, 45402, g.fileName);
    BlobIsLast(xs, 45424, g.md5);
    BlobIsLast(xs, 45812, g.path);
    NumberIsLast(xs, 45405, g.size);
    NumberIsLast(xs, 45411, g.width);
    NumberIsLast(xs, 45412, g.height);
  }

  /** Each part of the media is what was given under its own number: texts as they read, numbers cut to 64 or 32
      bits. */
  predicate MediaIs(m: Media, g: Given, utf8: Utf8) {
    && m.uuid == (if Readable(g.uuid, utf8) then utf8(g.uuid.value) else None)
    && m.fileName == (if Readable(g.fileName, utf8) then utf8(g.fileName.value) else None)
    && m.md5Hex == (if Readable(g.md5, utf8) then utf8(g.md5.value) else None)
    && m.localPath == (if Readable(g.path, utf8) then utf8(g.path.value) else None)
    && IsCut(g.size, m.size, 0x1_0000_0000_0000_0000)
    && IsCut(g.width, m.width, 0x1_0000_0000) && IsCut(g.height, m.height, 0x1_0000_0000)
  }

  lemma MediaFromSays(g: Given, urls: seq<Bytes>, utf8: Utf8)
    ensures var m := MediaFrom(g.uuid, g.fileName, g.md5, g.size, g.width, g.height, g.path, urls, utf8);
      && (m.Some? ==> MediaIs(m.value, g, utf8) && m.value.urls == SpelledAll(urls, utf8))
      && (m.Some? <==>
            || Readable(g.uuid, utf8) || Readable(g.fileName, utf8) || Readable(g.md5, utf8) || Readable(g.path, utf8)
            || g.size.Some? || SpelledAll(urls, utf8) != [])
  {
    CastCuts(g.size);
    CastCuts(g.width);
    CastCuts(g.height);
  }

  /** The media of a segment: there is one exactly when its type is 2, 4 or 5 and it was given a size, a readable
      identifier, name, hash or path, or a readable URL (width and height alone are not enough), and each of its parts
      is what was given last under that part's number. */
  lemma MediaSays(xs: seq<Field>, kind: Option<nat>, g: Given, utf8: Utf8)
    requires forall i :: 0 <= i < |xs| ==> Encodable(xs[i])
    requires NumberIs(xs, 45002, kind) && GivenIs(xs, g)
    ensures var media := SegmentOf(Walk(NOTHING, EncAll(xs)), utf8).media;
      && (media.Some? ==> MediaIs(media.value, g, utf8))
      && (media.Some? <==>
            && (kind == Some(2) || kind == Some(4) || kind == Some(5))
            && (|| Readable(g.uuid, utf8) || Readable(g.fileName, utf8) || Readable(g.md5, utf8)
                || Readable(g.path, utf8) || g.size.Some? || HasUrl(xs, utf8)))
  {
    ReadsBack(xs, utf8);
    NumberIsLast(xs, 45002, kind);
    GivenIsLast(xs, g);
    MediaFromSays(g, Urls(xs), utf8);
    UrlsThere(xs, utf8);
  }

  lemma {:induction false} UrlsThere(xs: seq<Field>, utf8: Utf8)
    ensures SpelledAll(Urls(xs), utf8) != [] <==> HasUrl(xs, utf8)
  {
    if xs != [] {
      var rest := xs[1..];
      UrlsThere(rest, utf8);
      assert forall i :: 0 <= i < |rest| ==> rest[i] == xs[i + 1];
      assert forall i :: 1 <= i < |xs| ==> xs[i] == rest[i - 1];
      if xs[0].Blob? && IsUrl(xs[0].k) && xs[0].data != [] {
        assert Urls(xs)[0] == xs[0].data && Urls(xs)[1..] == Urls(rest);
      } else {
        assert Urls(xs) == Urls(rest);
      }
    }
  }

  lemma {:induction false} UrlsJoin(xs: seq<Field>, x: Field)
    ensures Urls(xs + [x]) == Urls(xs) + if x.Blob? && IsUrl(x.k) && x.data != [] then [x.data] else []
  {
    if xs != [] {
      assert (xs + [x])[0] == xs[0] && (xs + [x])[1..] == xs[1..] + [x];
      UrlsJoin(xs[1..], x);
    }
  }

  lemma {:induction false} SpelledJoin(bs: seq<Bytes>, b: Bytes, utf8: Utf8)
    ensures SpelledAll(bs + [b], utf8) == SpelledAll(bs, utf8) + if utf8(b).Some? then [utf8(b).value] else []
  {
    if bs != [] {
      assert (bs + [b])[0] == bs[0] && (bs + [b])[1..] == bs[1..] + [b];
      SpelledJoin(bs[1..], b, utf8);
    }
  }

  /** The URL one more field adds. */
  function UrlOf(x: Field, utf8: Utf8): seq<string> {
    if x.Blob? && x.k in {45802, 45803, 45804, 45816} && x.data != [] && utf8(x.data).Some? then [utf8(x.data).value]
    else []
  }

  lemma UrlsSpelled(xs: seq<Field>, x: Field, utf8: Utf8)
    ensures SpelledAll(Urls(xs + [x]), utf8) == SpelledAll(Urls(xs), utf8) + UrlOf(x, utf8)
  {
    UrlsJoin(xs, x);
    if x.Blob? && IsUrl(x.k) && x.data != [] {
      SpelledJoin(Urls(xs), x.data, utf8);
    } else {
      assert Urls(xs) + [] == Urls(xs);
    }
  }

  lemma MediaUrls(xs: seq<Field>, utf8: Utf8)
    requires forall i :: 0 <= i < |xs| ==> Encodable(xs[i])
    ensures var media := SegmentOf(Walk(NOTHING, EncAll(xs)), utf8).media;
            media.Some? ==> media.value.urls == SpelledAll(Urls(xs), utf8)
  {
    ReadsBack(xs, utf8);
  }

  /** The URLs of a segment come in the order they were given: one more field adds its URL at the end if it is readable
      and under a URL number, and leaves the others alone. */
  lemma UrlsInOrder(xs: seq<Field>, x: Field, utf8: Utf8)
    requires forall i :: 0 <= i < |xs| + 1 ==> Encodable((xs + [x])[i])
    ensures var before := SegmentOf(Walk(NOTHING, EncAll(xs)), utf8).media;
      var after := SegmentOf(Walk(NOTHING, EncAll(xs + [x])), utf8).media;
      before.Some? && after.Some? ==> after.value.urls == before.value.urls + UrlOf(x, utf8)
  {
    assert forall i :: 0 <= i < |xs| ==> xs[i] == (xs + [x])[i];
    MediaUrls(xs, utf8);
    MediaUrls(xs + [x], utf8);
    UrlsSpelled(xs, x, utf8);
  }

  lemma TagAgain(k: nat, wire: nat, rest: Bytes)
    requires wire < 8 && 8 * k + wire < U64
    ensures ReadTag(EncVarint(8 * k + wire) + rest) == (Some((k, wire)), rest)
  {
    VarintRoundTrip(8 * k + wire, rest);
  }

  /** A group or any other unsupported wire type ends a segment with what it has. */
  lemma UnsupportedEndsSegment(f: Fields, k: nat, wire: nat, rest: Bytes)
    requires wire == 3 || wire == 4 || wire == 6 || wire == 7
    requires 8 * k + wire < U64
    ensures Walk(f, EncVarint(8 * k + wire) + rest) == f
  {
    TagAgain(k, wire, rest);
  }

  /** And it ends a body with the segments before it. */
  lemma UnsupportedEndsBody(k: nat, wire: nat, rest: Bytes)
    requires wire == 3 || wire == 4 || wire == 6 || wire == 7
    requires 8 * k + wire < U64
    ensures Wrapped(EncVarint(8 * k + wire) + rest) == []
  {
    TagAgain(k, wire, rest);
  }

  /** The payload of one wrapper under 40800 is the next segment; the rest of the body follows. */
  lemma WrapperIsRead(seg: Bytes, rest: Bytes)
    requires |seg| < U64
    ensures Wrapped(EncVarint(8 * 40800 + 2) + (EncVarint(|seg|) + seg + rest)) == [seg] + Wrapped(rest)
  {
    TagAgain(40800, 2, EncVarint(|seg|) + seg + rest);
    LenOfEnc(seg, rest);
  }

  lemma TooShort(n: nat, rest: Bytes)
    requires |rest| < n < U64
    ensures ReadLen(EncVarint(n) + rest) == (None, rest)
  {
    VarintRoundTrip(n, rest);
  }

  /** A wrapper that announces more than there is ends the body. */
  lemma TornWrapperEnds(n: nat, rest: Bytes)
    requires |rest| < n < U64
    ensures Wrapped(EncVarint(8 * 40800 + 2) + (EncVarint(n) + rest)) == []
  {
    TagAgain(40800, 2, EncVarint(n) + rest);
    TooShort(n, rest);
  }

  /** Inside a segment, a text field that announces more than there is clears what was read under its number, and the
      walk goes on with the bytes that are there. */
  lemma TornTextIsForgotten(f: Fields, k: nat, n: nat, rest: Bytes)
    requires k in {45101, 47602, 45503, 45402, 45424, 45812} && |rest| < n < U64
    ensures Walk(f, EncVarint(8 * k + 2) + (EncVarint(n) + rest)) == Walk(f.(texts := f.texts - {k}), rest)
  {
    TagAgain(k, 2, EncVarint(n) + rest);
    TornText(f, k, n, rest);
  }

  lemma TornText(f: Fields, k: nat, n: nat, rest: Bytes)
    requires k in {45101, 47602, 45503, 45402, 45424, 45812} && |rest| < n < U64
    ensures Take(f, k, 2, EncVarint(n) + rest) == (f.(texts := f.texts - {k}), rest, true)
  {
    TooShort(n, rest);
  }
}

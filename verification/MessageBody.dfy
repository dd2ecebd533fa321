/** The structured message body (src/parser/proto.rs, `decode_segment` and `parse_msg_body`). Whether bytes are
    UTF-8, and which string they spell, is the parameter `utf8`. */
module MessageBody {
  import opened Octets
  import opened Optional
  import opened Wire
  import Sequences

  const CONTENT := 40800
  const SEG_ID := 45001
  const CONTENT_TYPE := 45002
  const SUBTYPE := 45003
  const TEXT := 45101
  const EMOJI_ID := 47601
  const EMOJI_TEXT := 47602
  const UUID := 45503
  const FILE_NAME := 45402
  const RAW_MD5 := 45406
  const MD5_HEX := 45424
  const SIZE := 45405
  const WIDTH := 45411
  const HEIGHT := 45412
  const LOCAL_PATH := 45812

  predicate IsNumber(k: nat) { k in {SEG_ID, CONTENT_TYPE, SUBTYPE, SIZE, WIDTH, HEIGHT} }

  predicate IsText(k: nat) { k in {TEXT, EMOJI_TEXT, UUID, FILE_NAME, MD5_HEX, LOCAL_PATH} }

  predicate IsUrl(k: nat) { k in {45802, 45803, 45804, 45816} }

  /** What a walk has collected: per field its last value, and the URLs in order. */
  datatype Fields = Fields(nums: map<nat, nat>, texts: map<nat, Bytes>, urls: seq<Bytes>)

  const NOTHING := Fields(map[], map[], [])

  function Assign<V>(m: map<nat, V>, k: nat, v: Option<V>): map<nat, V> {
    if v.Some? then m[k := v.value] else m - {k}
  }

  function Get<V>(m: map<nat, V>, k: nat): Option<V> { if k in m then Some(m[k]) else None }

  function AddUrl(urls: seq<Bytes>, u: Option<Bytes>): seq<Bytes> {
    if u.Some? && u.value != [] then urls + [u.value] else urls
  }

  /** One field after its tag: the fields now, what is left, and whether to go on. A failed read of a known
      field clears it and goes on; a failed skip ends the walk. */
  function Take(f: Fields, k: nat, wire: nat, rest: Bytes): (Fields, Bytes, bool) {
    if wire == 0 && IsNumber(k) then
      (f.(nums := Assign(f.nums, k, ReadVarint(rest).0)), ReadVarint(rest).1, true)
    else if wire == 2 && IsText(k) then
      (f.(texts := Assign(f.texts, k, ReadLen(rest).0)), ReadLen(rest).1, true)
    else if wire == 0 && k == EMOJI_ID then (f, ReadVarint(rest).1, true)
    else if wire == 2 && k == RAW_MD5 then (f, ReadLen(rest).1, true)
    else if wire == 2 && IsUrl(k) then (f.(urls := AddUrl(f.urls, ReadLen(rest).0)), ReadLen(rest).1, true)
    else (f, Skip(rest, wire).1, Skip(rest, wire).0)
  }

  lemma TakeConsumes(f: Fields, k: nat, wire: nat, rest: Bytes)
    ensures |Take(f, k, wire, rest).1| <= |rest|
  {
    VarintConsumes(rest, 10);
    LenConsumes(rest);
    SkipConsumes(rest, wire);
  }

  function Walk(f: Fields, rest: Bytes): Fields
    decreases |rest|
  {
    var (tag, after) := ReadTag(rest);
    if tag.None? then f
    else
      TagConsumes(rest);
      TakeConsumes(f, tag.value.0, tag.value.1, after);
      var (g, left, go) := Take(f, tag.value.0, tag.value.1, after);
      if go then Walk(g, left) else f
  }

  datatype Media = Media(uuid: Option<string>, fileName: Option<string>, md5Hex: Option<string>, size: Option<int>,
                         width: Option<int>, height: Option<int>, localPath: Option<string>, urls: seq<string>)

  datatype Segment = Segment(segId: Option<nat>, contentType: Option<nat>, subtype: Option<nat>,
                             text: Option<string>, media: Option<Media>)

  type Utf8 = Bytes -> Option<string>

  function AsI64(v: nat): int { if v % U64 >= U64 / 2 then v % U64 - U64 else v % U64 }

  function AsI32(v: nat): int {
    var w := v % 0x1_0000_0000;
    if w >= 0x8000_0000 then w - 0x1_0000_0000 else w
  }

  function Spelled(b: Option<Bytes>, utf8: Utf8): Option<string> { if b.Some? then utf8(b.value) else None }

  function NonEmpty(s: Option<string>): Option<string> { if s == Some("") then None else s }

  function SpelledAll(bs: seq<Bytes>, utf8: Utf8): seq<string> {
    if bs == [] then []
    else (if utf8(bs[0]).Some? then [utf8(bs[0]).value] else []) + SpelledAll(bs[1..], utf8)
  }

  function Cast(v: Option<nat>, as': nat -> int): Option<int> { if v.Some? then Some(as'(v.value)) else None }

  function MediaFrom(uuid: Option<Bytes>, fileName: Option<Bytes>, md5Hex: Option<Bytes>, size: Option<nat>,
                     width: Option<nat>, height: Option<nat>, localPath: Option<Bytes>, urls: seq<Bytes>,
                     utf8: Utf8): Option<Media>
  {
    var m := Media(Spelled(uuid, utf8), Spelled(fileName, utf8), Spelled(md5Hex, utf8), Cast(size, AsI64),
                   Cast(width, AsI32), Cast(height, AsI32), Spelled(localPath, utf8), SpelledAll(urls, utf8));
    if m.uuid.None? && m.fileName.None? && m.md5Hex.None? && m.size.None? && m.localPath.None? && m.urls == []
    then None else Some(m)
  }

  /** Texts are made of the content types that carry text, the emoji's where there is no other; media of those
      that carry media. */
  function TextFrom(kind: Option<nat>, text: Option<Bytes>, emoji: Option<Bytes>, utf8: Utf8): Option<string> {
    var own := NonEmpty(Spelled(text, utf8));
    if kind !in {Some(1), Some(6)} then None
    else if own.Some? then own else NonEmpty(Spelled(emoji, utf8))
  }

  predicate CarriesMedia(kind: Option<nat>) { kind in {Some(2), Some(4), Some(5)} }

  function SegmentOf(f: Fields, utf8: Utf8): Segment {
    var kind := Get(f.nums, CONTENT_TYPE);
    Segment(Get(f.nums, SEG_ID), kind, Get(f.nums, SUBTYPE),
            TextFrom(kind, Get(f.texts, TEXT), Get(f.texts, EMOJI_TEXT), utf8),
            if !CarriesMedia(kind) then None
            else MediaFrom(Get(f.texts, UUID), Get(f.texts, FILE_NAME), Get(f.texts, MD5_HEX), Get(f.nums, SIZE),
                           Get(f.nums, WIDTH), Get(f.nums, HEIGHT), Get(f.texts, LOCAL_PATH), f.urls, utf8))
  }

  method TakeField(cursor: Cursor, f: Fields, k: nat, wire: nat) returns (g: Fields, go: bool)
    requires cursor.Valid()
    modifies cursor
    ensures cursor.Valid() && (g, cursor.Rest(), go) == Take(f, k, wire, old(cursor.Rest()))
  {
    g, go := f, true;
    if wire == 0 && IsNumber(k) {
      var v := cursor.NextVarint();
      g := f.(nums := Assign(f.nums, k, v));
    } else if wire == 2 && IsText(k) {
      var b := cursor.NextLen();
      g := f.(texts := Assign(f.texts, k, b));
    } else if wire == 0 && k == EMOJI_ID {
      var _ := cursor.NextVarint();
    } else if wire == 2 && k == RAW_MD5 {
      var _ := cursor.NextLen();
    } else if wire == 2 && IsUrl(k) {
      var u := cursor.NextLen();
      g := f.(urls := AddUrl(f.urls, u));
    } else {
      go := cursor.SkipValue(wire);
    }
  }

  method DecodeSegment(bytes: Bytes, utf8: Utf8) returns (out: Segment)
    ensures out == SegmentOf(Walk(NOTHING, bytes), utf8)
  {
    var cursor := new Cursor(bytes);
    var f := NOTHING;
    assert bytes[0..] == bytes;
    ghost var rest := cursor.Rest();
    var tag := cursor.NextTag();
    while tag.Some?
      invariant cursor.Valid()
      invariant (tag, cursor.Rest()) == ReadTag(rest)
      invariant Walk(NOTHING, bytes) == Walk(f, rest)
      decreases |rest|
    {
      var (k, wire) := tag.value;
      TagConsumes(rest);
      TakeConsumes(f, k, wire, cursor.Rest());
      var g, go := TakeField(cursor, f, k, wire);
      if !go {
        return SegmentOf(f, utf8);
      }
      f, rest := g, cursor.Rest();
      tag := cursor.NextTag();
    }
    out := SegmentOf(f, utf8);
  }

  /** The payloads of the content wrappers, in order, up to the first thing that cannot be read. */
  function Wrapped(rest: Bytes): seq<Bytes>
    decreases |rest|
  {
    var (tag, after) := ReadTag(rest);
    if tag.None? then []
    else
      TagConsumes(rest);
      LenConsumes(after);
      SkipConsumes(after, tag.value.1);
      if tag.value == (CONTENT, 2) then
        var (seg, left) := ReadLen(after);
        if seg.None? then [] else [seg.value] + Wrapped(left)
      else
        var (ok, left) := Skip(after, tag.value.1);
        if ok then Wrapped(left) else []
  }

  function Segments(payloads: seq<Bytes>, utf8: Utf8): (out: seq<Segment>)
    ensures |out| == |payloads|
    ensures forall i :: 0 <= i < |out| ==> out[i] == SegmentOf(Walk(NOTHING, payloads[i]), utf8)
  {
    seq(|payloads|, i requires 0 <= i < |payloads| => SegmentOf(Walk(NOTHING, payloads[i]), utf8))
  }

  lemma ValueConsumes(rest: Bytes)
    requires ReadTag(rest).0.Some?
    ensures var (tag, after) := ReadTag(rest);
            |ReadLen(after).1| < |rest| && |Skip(after, tag.value.1).1| < |rest|
  {
    var (tag, after) := ReadTag(rest);
    TagConsumes(rest);
    LenConsumes(after);
    SkipConsumes(after, tag.value.1);
  }

  lemma WrapperNext(rest: Bytes, read: seq<Bytes>, after: Bytes, seg: Bytes, left: Bytes)
    requires ReadTag(rest).0.Some? && ReadTag(rest).0.value == (CONTENT, 2) && ReadTag(rest).1 == after
    requires ReadLen(after) == (Some(seg), left)
    ensures read + Wrapped(rest) == read + [seg] + Wrapped(left)
  {
    assert Wrapped(rest) == [seg] + Wrapped(left);
  }

  lemma SegmentsNext(read: seq<Bytes>, seg: Bytes, utf8: Utf8)
    ensures Segments(read + [seg], utf8) == Segments(read, utf8) + [SegmentOf(Walk(NOTHING, seg), utf8)]
  {
  }

  method ParseMsgBody(blob: Bytes, utf8: Utf8) returns (out: seq<Segment>)
    ensures out == Segments(Wrapped(blob), utf8)
  {
    var cursor := new Cursor(blob);
    out := [];
    ghost var read: seq<Bytes> := [];
    assert blob[0..] == blob && [] + Wrapped(blob) == Wrapped(blob);
    ghost var rest := cursor.Rest();
    var tag := cursor.NextTag();
    while tag.Some?
      invariant cursor.Valid()
      invariant (tag, cursor.Rest()) == ReadTag(rest)
      invariant read + Wrapped(rest) == Wrapped(blob) && out == Segments(read, utf8)
      decreases |rest|
    {
      ValueConsumes(rest);
      ghost var after := cursor.Rest();
      var (k, wire) := tag.value;
      if k == CONTENT && wire == 2 {
        var seg := cursor.NextLen();
        if seg.None? {
          assert Wrapped(rest) == [] && read + [] == read;
          return;
        }
        WrapperNext(rest, read, after, seg.value, cursor.Rest());
        var s := DecodeSegment(seg.value, utf8);
        SegmentsNext(read, seg.value, utf8);
        out, read := out + [s], read + [seg.value];
      } else {
        var ok := cursor.SkipValue(wire);
        if !ok {
          assert Wrapped(rest) == [] && read + [] == read;
          return;
        }
      }
      rest := cursor.Rest();
      tag := cursor.NextTag();
    }
    assert read + [] == read;
  }

  // ---- Cutting a body short ----

  /** Every prefix of a blob yields a prefix of its segments. */
  lemma {:induction false} TruncationKeepsAPrefix(whole: Bytes, part: Bytes)
    requires part <= whole
    ensures Wrapped(part) <= Wrapped(whole)
    decreases |part|
  {
    var more := whole[|part|..];
    assert whole == part + more;
    var (tag, after) := ReadTag(part);
    if tag.Some? {
      TagExtends(part, more);
      TagConsumes(part);
      LenConsumes(after);
      SkipConsumes(after, tag.value.1);
      if tag.value == (CONTENT, 2) {
        var (seg, left) := ReadLen(after);
        if seg.Some? {
          LenExtends(after, more);
          TruncationKeepsAPrefix(left + more, left);
        }
      } else if Skip(after, tag.value.1).0 {
        SkipExtends(after, more, tag.value.1);
        var left := Skip(after, tag.value.1).1;
        TruncationKeepsAPrefix(left + more, left);
      }
    }
  }

  lemma TruncatedSegments(whole: Bytes, part: Bytes, utf8: Utf8)
    requires part <= whole
    ensures Segments(Wrapped(part), utf8) <= Segments(Wrapped(whole), utf8)
  {
    TruncationKeepsAPrefix(whole, part);
  }

  // ---- The encoder, and reading it back ----

  datatype Field = Number(k: nat, value: nat) | Blob(k: nat, data: Bytes) | Fixed(k: nat, wire: nat, data: Bytes)

  function WireOf(x: Field): nat { if x.Number? then 0 else if x.Blob? then 2 else x.wire }

  predicate Encodable(x: Field) {
    && 8 * x.k + 7 < U64 && (x.Number? ==> x.value < U64) && (x.Blob? ==> |x.data| < U64)
    && (x.Fixed? ==> (x.wire == 1 && |x.data| == 8) || (x.wire == 5 && |x.data| == 4))
  }

  function Payload(x: Field): Bytes {
    match x
    case Number(_, v) => EncVarint(v)
    case Blob(_, data) => EncVarint(|data|) + data
    case Fixed(_, _, data) => data
  }

  function EncField(x: Field): Bytes { EncVarint(8 * x.k + WireOf(x)) + Payload(x) }

  function EncAll(xs: seq<Field>): Bytes { if xs == [] then [] else EncField(xs[0]) + EncAll(xs[1..]) }

  function Effect(f: Fields, x: Field): Fields {
    match x
    case Number(k, v) => if IsNumber(k) then f.(nums := f.nums[k := v]) else f
    case Blob(k, data) =>
      if IsText(k) then f.(texts := f.texts[k := data])
      else if IsUrl(k) && data != [] then f.(urls := f.urls + [data]) else f
    case Fixed(_, _, _) => f
  }

  function Fold(f: Fields, xs: seq<Field>): Fields
    decreases |xs|
  {
    if xs == [] then f else Fold(Effect(f, xs[0]), xs[1..])
  }

  lemma TagOfEnc(x: Field, suffix: Bytes)
    requires Encodable(x)
    ensures ReadTag(EncField(x) + suffix) == (Some((x.k, WireOf(x))), Payload(x) + suffix)
  {
    assert WireOf(x) < 8;
    VarintRoundTrip(8 * x.k + WireOf(x), Payload(x) + suffix);
    Sequences.Join(EncVarint(8 * x.k + WireOf(x)), Payload(x), suffix);
  }

  lemma LenOfEnc(data: Bytes, suffix: Bytes)
    requires |data| < U64
    ensures ReadLen(EncVarint(|data|) + data + suffix) == (Some(data), suffix)
  {
    VarintRoundTrip(|data|, data + suffix);
    assert EncVarint(|data|) + data + suffix == EncVarint(|data|) + (data + suffix);
    assert (data + suffix)[..|data|] == data && (data + suffix)[|data|..] == suffix;
  }

  lemma SkipOfEnc(x: Field, suffix: Bytes)
    requires Encodable(x)
    ensures Skip(Payload(x) + suffix, WireOf(x)) == (true, suffix)
  {
    match x
    case Number(_, v) => VarintRoundTrip(v, suffix);
    case Blob(_, data) => LenOfEnc(data, suffix);
    case Fixed(_, _, data) => assert (data + suffix)[|data|..] == suffix;
  }

  lemma TakeOfEnc(f: Fields, x: Field, suffix: Bytes)
    requires Encodable(x)
    ensures Take(f, x.k, WireOf(x), Payload(x) + suffix) == (Effect(f, x), suffix, true)
  {
    SkipOfEnc(x, suffix);
    match x
    case Number(_, v) => VarintRoundTrip(v, suffix);
    case Blob(_, data) => LenOfEnc(data, suffix);
    case Fixed(_, _, _) =>
  }

  /** Walking an encoded field list gives the effect of its fields, one after the other. */
  lemma {:induction false} WalkOfEnc(f: Fields, xs: seq<Field>)
    requires forall i :: 0 <= i < |xs| ==> Encodable(xs[i])
    ensures Walk(f, EncAll(xs)) == Fold(f, xs)
    decreases |xs|
  {
    if xs != [] {
      var x, suffix := xs[0], EncAll(xs[1..]);
      TagOfEnc(x, suffix);
      TakeOfEnc(f, x, suffix);
      WalkOfEnc(Effect(f, x), xs[1..]);
    }
  }

  /** The last number under a field, if there is one. */
  function LastNumber(xs: seq<Field>, k: nat): Option<nat> {
    if xs == [] then None
    else if LastNumber(xs[1..], k).Some? then LastNumber(xs[1..], k)
    else if xs[0].Number? && xs[0].k == k then Some(xs[0].value) else None
  }

  function LastBlob(xs: seq<Field>, k: nat): Option<Bytes> {
    if xs == [] then None
    else if LastBlob(xs[1..], k).Some? then LastBlob(xs[1..], k)
    else if xs[0].Blob? && xs[0].k == k then Some(xs[0].data) else None
  }

  function Urls(xs: seq<Field>): seq<Bytes> {
    if xs == [] then []
    else (if xs[0].Blob? && IsUrl(xs[0].k) && xs[0].data != [] then [xs[0].data] else []) + Urls(xs[1..])
  }

  lemma {:induction false} FoldNumber(f: Fields, xs: seq<Field>, k: nat)
    requires IsNumber(k)
    ensures Get(Fold(f, xs).nums, k) == if LastNumber(xs, k).Some? then LastNumber(xs, k) else Get(f.nums, k)
    decreases |xs|
  {
    if xs != [] {
      FoldNumber(Effect(f, xs[0]), xs[1..], k);
    }
  }

  lemma {:induction false} FoldText(f: Fields, xs: seq<Field>, k: nat)
    requires IsText(k)
    ensures Get(Fold(f, xs).texts, k) == if LastBlob(xs, k).Some? then LastBlob(xs, k) else Get(f.texts, k)
    decreases |xs|
  {
    if xs != [] {
      FoldText(Effect(f, xs[0]), xs[1..], k);
    }
  }

  lemma {:induction false} FoldUrls(f: Fields, xs: seq<Field>)
    ensures Fold(f, xs).urls == f.urls + Urls(xs)
    decreases |xs|
  {
    if xs != [] {
      FoldUrls(Effect(f, xs[0]), xs[1..]);
      var head := if xs[0].Blob? && IsUrl(xs[0].k) && xs[0].data != [] then [xs[0].data] else [];
      assert f.urls + (head + Urls(xs[1..])) == f.urls + head + Urls(xs[1..]);
    }
  }

  /** What a field list leaves: the last value under each known field, and the non-empty URLs. */
  lemma FoldMeans(xs: seq<Field>)
    ensures forall k :: IsNumber(k) ==> Get(Fold(NOTHING, xs).nums, k) == LastNumber(xs, k)
    ensures forall k :: IsText(k) ==> Get(Fold(NOTHING, xs).texts, k) == LastBlob(xs, k)
    ensures Fold(NOTHING, xs).urls == Urls(xs)
  {
    forall k: nat | IsNumber(k) ensures Get(Fold(NOTHING, xs).nums, k) == LastNumber(xs, k) {
      FoldNumber(NOTHING, xs, k);
    }
    forall k: nat | IsText(k) ensures Get(Fold(NOTHING, xs).texts, k) == LastBlob(xs, k) {
      FoldText(NOTHING, xs, k);
    }
    FoldUrls(NOTHING, xs);
    assert [] + Urls(xs) == Urls(xs);
  }

  /** For every field list: the walk of its encoding holds, under each known field, the last value given for
      it, and the non-empty URLs in order; everything else is skipped. */
  lemma SegmentRoundTrip(xs: seq<Field>)
    requires forall i :: 0 <= i < |xs| ==> Encodable(xs[i])
    ensures var f := Walk(NOTHING, EncAll(xs));
      && (forall k :: IsNumber(k) ==> Get(f.nums, k) == LastNumber(xs, k))
      && (forall k :: IsText(k) ==> Get(f.texts, k) == LastBlob(xs, k))
      && f.urls == Urls(xs)
  {
    WalkOfEnc(NOTHING, xs);
    FoldMeans(xs);
  }

  /** A body: content wrappers, and fields of any other number or type in between. */
  datatype Part = Wrapper(fields: seq<Field>) | Foreign(field: Field)

  predicate PartOk(p: Part) {
    match p
    case Wrapper(xs) => (forall i :: 0 <= i < |xs| ==> Encodable(xs[i])) && |EncAll(xs)| < U64
    case Foreign(x) => Encodable(x) && !(x.Blob? && x.k == CONTENT)
  }

  function EncPart(p: Part): Bytes { EncField(if p.Wrapper? then Blob(CONTENT, EncAll(p.fields)) else p.field) }

  function EncBody(ps: seq<Part>): Bytes { if ps == [] then [] else EncPart(ps[0]) + EncBody(ps[1..]) }

  function Wrappers(ps: seq<Part>): seq<seq<Field>> {
    if ps == [] then [] else (if ps[0].Wrapper? then [ps[0].fields] else []) + Wrappers(ps[1..])
  }

  /** One payload per wrapper, in order; everything between them is skipped. */
  lemma {:induction false} BodyRoundTrip(ps: seq<Part>)
    requires forall i :: 0 <= i < |ps| ==> PartOk(ps[i])
    ensures |Wrapped(EncBody(ps))| == |Wrappers(ps)|
    ensures forall i :: 0 <= i < |Wrappers(ps)| ==> Wrapped(EncBody(ps))[i] == EncAll(Wrappers(ps)[i])
  {
    if ps != [] {
      var p, suffix := ps[0], EncBody(ps[1..]);
      assert PartOk(p);
      BodyRoundTrip(ps[1..]);
      var x := if p.Wrapper? then Blob(CONTENT, EncAll(p.fields)) else p.field;
      TagOfEnc(x, suffix);
      if p.Wrapper? {
        LenOfEnc(x.data, suffix);
        assert Wrapped(EncBody(ps)) == [x.data] + Wrapped(suffix);
      } else {
        SkipOfEnc(x, suffix);
        assert Wrapped(EncBody(ps)) == Wrapped(suffix);
        assert [] + Wrappers(ps[1..]) == Wrappers(ps[1..]);
      }
    }
  }

  /** The segment a field list spells: under each field the last value given for it, and the URLs in order. */
  function Spelling(xs: seq<Field>, utf8: Utf8): Segment {
    var kind := LastNumber(xs, CONTENT_TYPE);
    Segment(LastNumber(xs, SEG_ID), kind, LastNumber(xs, SUBTYPE),
            TextFrom(kind, LastBlob(xs, TEXT), LastBlob(xs, EMOJI_TEXT), utf8),
            if !CarriesMedia(kind) then None
            else MediaFrom(LastBlob(xs, UUID), LastBlob(xs, FILE_NAME), LastBlob(xs, MD5_HEX), LastNumber(xs, SIZE),
                           LastNumber(xs, WIDTH), LastNumber(xs, HEIGHT), LastBlob(xs, LOCAL_PATH), Urls(xs), utf8))
  }

  lemma SegmentOfFold(xs: seq<Field>, utf8: Utf8)
    ensures SegmentOf(Fold(NOTHING, xs), utf8) == Spelling(xs, utf8)
  {
    FoldMeans(xs);
  }

  /** Parsing an encoded body gives one segment per wrapper, in order, each with the last values of its own
      known fields and its non-empty URLs in order; everything else is skipped. */
  lemma ParsesWhatWasEncoded(ps: seq<Part>, utf8: Utf8)
    requires forall i :: 0 <= i < |ps| ==> PartOk(ps[i])
    ensures var out := Segments(Wrapped(EncBody(ps)), utf8);
      && |out| == |Wrappers(ps)|
      && forall i :: 0 <= i < |out| ==> out[i] == Spelling(Wrappers(ps)[i], utf8)
  {
    BodyRoundTrip(ps);
    WrappersOk(ps);
    var out := Segments(Wrapped(EncBody(ps)), utf8);
    forall i | 0 <= i < |out| ensures out[i] == Spelling(Wrappers(ps)[i], utf8) {
      WalkOfEnc(NOTHING, Wrappers(ps)[i]);
      SegmentOfFold(Wrappers(ps)[i], utf8);
    }
  }

  lemma {:induction false} WrappersOk(ps: seq<Part>)
    requires forall i :: 0 <= i < |ps| ==> PartOk(ps[i])
    ensures forall i, j :: 0 <= i < |Wrappers(ps)| && 0 <= j < |Wrappers(ps)[i]| ==> Encodable(Wrappers(ps)[i][j])
  {
    if ps != [] {
      WrappersOk(ps[1..]);
      assert PartOk(ps[0]);
    }
  }
}

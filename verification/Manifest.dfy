/** Hexadecimal names and the anchored manifest that makes one object durable. */
module Manifests {
  import opened Prelude
  import opened Storage
  import opened Shapes
  import opened Wire
  import opened Compat
  import opened Eviction

  // ---- Hexadecimal names -------------------------------------------------------------------

  function HexDigit(n: nat): byte
    requires n < 16
  {
    if n < 10 then 48 + n else 87 + n
  }

  function HexValue(c: byte): (r: Result<nat>)
    ensures r.Ok? ==> r.value < 16
  {
    if 48 <= c <= 57 then Ok(c - 48)
    else if 97 <= c <= 102 then Ok(c - 87)
    else if 65 <= c <= 70 then Ok(c - 55)
    else Err(InvalidArgument)
  }

  function ToHex(b: Bytes): (h: Bytes)
    ensures |h| == 2 * |b|
  {
    if b == [] then [] else [HexDigit(b[0] / 16), HexDigit(b[0] % 16)] + ToHex(b[1..])
  }

  function ParseHex(s: Bytes): Result<Bytes>
    decreases |s|
  {
    if s == [] then Ok([])
    else if |s| == 1 then Err(InvalidArgument)
    else
      var hi :- HexValue(s[0]);
      var lo :- HexValue(s[1]);
      var rest :- ParseHex(s[2..]);
      Ok([16 * hi + lo] + rest)
  }

  /** An object identity read back from its name. */
  function ObjectIdFromHex(s: Bytes): Result<Digest> {
    var b :- ParseHex(s);
    if |b| == 32 then Ok(b) else Err(InvalidArgument)
  }

  lemma {:induction false} ParseToHex(b: Bytes)
    ensures ParseHex(ToHex(b)) == Ok(b)
  {
    if b != [] {
      ParseToHex(b[1..]);
      assert ToHex(b)[2..] == ToHex(b[1..]);
      assert b == [b[0]] + b[1..];
    }
  }

  lemma {:induction false} HexIsText(b: Bytes)
    ensures ValidUtf8(ToHex(b))
  {
    if b != [] {
      HexIsText(b[1..]);
      var h := ToHex(b);
      assert h[1..][1..] == ToHex(b[1..]);
      assert ScalarLength(h) == 1 && ScalarLength(h[1..]) == 1;
    }
  }

  /** Names sort as the identities they spell. */
  lemma {:induction false} HexKeepsOrder(a: Bytes, b: Bytes)
    ensures LexLeq(ToHex(a), ToHex(b)) == LexLeq(a, b)
    decreases |a|
  {
    if a != [] && b != [] {
      HexKeepsOrder(a[1..], b[1..]);
      var x, y := ToHex(a), ToHex(b);
      assert x[1..][1..] == ToHex(a[1..]) && y[1..][1..] == ToHex(b[1..]);
    }
  }

  method WriteHex(b: Bytes) returns (h: Bytes)
    ensures h == ToHex(b)
  {
    h := [];
    assert b[0..] == b;
    for i := 0 to |b|
      invariant h + ToHex(b[i..]) == ToHex(b)
    {
      assert b[i..][1..] == b[i + 1..];
      h := h + [HexDigit(b[i] / 16)];
      h := h + [HexDigit(b[i] % 16)];
    }
    assert h + [] == h;
  }

  function Joined(done: Bytes, r: Result<Bytes>): Result<Bytes> {
    if r.Ok? then Ok(done + r.value) else r
  }

  lemma JoinedStep(done: Bytes, x: byte, r: Result<Bytes>)
    ensures Joined(done, if r.Ok? then Ok([x] + r.value) else r) == Joined(done + [x], r)
  {
    if r.Ok? {
      assert done + ([x] + r.value) == (done + [x]) + r.value;
    }
  }

  method ReadHex(s: Bytes) returns (r: Result<Bytes>)
    ensures |s| % 2 == 0 ==> r == ParseHex(s)
    ensures |s| % 2 == 1 ==> r.Err? && ParseHex(s).Err?
  {
    if |s| % 2 != 0 {
      OddHexFails(s);
      return Err(InvalidArgument);
    }
    var out: Bytes := [];
    var i := 0;
    assert s[0..] == s && forall x: Bytes :: [] + x == x;
    while i < |s|
      invariant 0 <= i <= |s| && i % 2 == 0 && ParseHex(s) == Joined(out, ParseHex(s[i..]))
    {
      var rest := s[i..];
      assert rest[0] == s[i] && rest[1] == s[i + 1] && rest[2..] == s[i + 2..];
      var hi :- HexValue(s[i]);
      var lo :- HexValue(s[i + 1]);
      JoinedStep(out, 16 * hi + lo, ParseHex(s[i + 2..]));
      out := out + [16 * hi + lo];
      i := i + 2;
    }
    assert s[i..] == [] && out + [] == out;
    return Ok(out);
  }

  lemma {:induction false} OddHexFails(s: Bytes)
    requires |s| % 2 == 1
    ensures ParseHex(s).Err?
    decreases |s|
  {
    if |s| > 1 {
      OddHexFails(s[2..]);
    }
  }

  // ---- Manifests ---------------------------------------------------------------------------

  const MAGIC: nat := 0x5443_4D31

  datatype Meta = Meta(objectId: Bytes, namespace: Bytes, key: Bytes, generation: u64, compat: CompatKey,
                       byteLen: u64, numel: u64, createdNs: u64, blocks: seq<BlockRef>)

  const MANIFEST: seq<Field> :=
    [Num(4, MAGIC, MAGIC), Num(1, 1, 1), Text, Text, Text, U64, Blob, U64, U64, U64, Refs(MAX_BLOCKS)]

  function MetaValues(m: Meta): (vs: seq<Value>)
    ensures |vs| == |MANIFEST|
  {
    [VNum(MAGIC), VNum(1), VBlob(m.objectId), VBlob(m.namespace), VBlob(m.key), VNum(m.generation),
     VBlob(Encode(m.compat)), VNum(m.byteLen), VNum(m.numel), VNum(m.createdNs), VRefs(m.blocks)]
  }

  function ManifestBody(m: Meta): Bytes {
    PrintAll(MANIFEST, MetaValues(m))
  }

  /** The body followed by its digest. */
  function EncodeManifest(c: Content, m: Meta): Bytes {
    ManifestBody(m) + c.hash(ManifestBody(m))
  }

  /** What a reader checks once the fields are parsed. */
  predicate Coherent(m: Meta) {
    && ByteLen(m.compat.dims, ElementSize(m.compat.dtype)) == Ok(m.byteLen)
    && Numel(m.compat.dims) == Ok(m.numel)
    && Accepts(m.blocks, m.byteLen)
  }

  function FromManifest(vs: seq<Value>): Result<Meta>
    requires |vs| == |MANIFEST|
  {
    if && vs[2].VBlob? && vs[3].VBlob? && vs[4].VBlob? && vs[5].VNum? && vs[5].n < TWO_64 && vs[6].VBlob?
       && vs[7].VNum? && vs[7].n < TWO_64 && vs[8].VNum? && vs[8].n < TWO_64 && vs[9].VNum? && vs[9].n < TWO_64
       && vs[10].VRefs?
    then
      var compat :- Decode(vs[6].b);
      var m := Meta(vs[2].b, vs[3].b, vs[4].b, vs[5].n, compat, vs[7].n, vs[8].n, vs[9].n, vs[10].rs);
      if Coherent(m) then Ok(m) else Err(Persistence)
    else Err(Persistence)
  }

  function DecodeManifest(c: Content, data: Bytes): Result<Meta> {
    if |data| < 32 then Err(Persistence)
    else
      var body := data[..|data| - 32];
      if c.hash(body) != data[|data| - 32..] then Err(Persistence)
      else
        var vs :- DecodeRecord(MANIFEST, body);
        if |vs| == |MANIFEST| then FromManifest(vs) else Err(Persistence)
  }

  /** What the field types guarantee of any record that could be written. */
  ghost predicate TypedMeta(m: Meta) {
    && ShortText(m.objectId) && ShortText(m.namespace) && ShortText(m.key)
    && WellTyped(m.compat) && |Encode(m.compat)| < TWO_64
  }

  ghost predicate WellTypedMeta(m: Meta) {
    TypedMeta(m) && ValidLayout(m.compat.layout, m.compat.dims)
  }

  lemma MetaFits(m: Meta)
    requires TypedMeta(m) && |m.blocks| <= MAX_BLOCKS
    ensures FitsAll(MANIFEST, MetaValues(m))
  {
    Powers();
  }

  lemma AnchorSplit(body: Bytes, anchor: Bytes)
    requires |anchor| == 32
    ensures var data := body + anchor; data[..|data| - 32] == body && data[|data| - 32..] == anchor
  {
  }

  lemma DecodeInvertsManifest(c: Content, m: Meta)
    requires WellTypedMeta(m) && Coherent(m)
    ensures DecodeManifest(c, EncodeManifest(c, m)) == Ok(m)
  {
    MetaFits(m);
    AnchorSplit(ManifestBody(m), c.hash(ManifestBody(m)));
    RecordBijection(MANIFEST, ManifestBody(m), MetaValues(m));
    DecodeInvertsEncode(m.compat);
  }

  lemma FromManifestValues(vs: seq<Value>)
    requires FitsAll(MANIFEST, vs) && FromManifest(vs).Ok?
    ensures var m := FromManifest(vs).value; WellTypedMeta(m) && Coherent(m) && MetaValues(m) == vs
  {
    hide ShortText, Power, Coherent, Encode, Decode, ValidLayout;
    assert forall i :: 0 <= i < |MANIFEST| ==> Fits(MANIFEST[i], vs[i]);
    assert Fits(MANIFEST[0], vs[0]) && Fits(MANIFEST[1], vs[1]) && Fits(MANIFEST[2], vs[2]) && Fits(MANIFEST[3], vs[3])
        && Fits(MANIFEST[4], vs[4]) && Fits(MANIFEST[6], vs[6]);
    EncodeInvertsDecode(vs[6].b);
  }

  lemma ManifestInvertsDecode(c: Content, data: Bytes)
    requires DecodeManifest(c, data).Ok?
    ensures var m := DecodeManifest(c, data).value; WellTypedMeta(m) && Coherent(m) && EncodeManifest(c, m) == data
  {
    var body := data[..|data| - 32];
    var vs := DecodeRecord(MANIFEST, body).value;
    RecordBijection(MANIFEST, body, vs);
    FromManifestValues(vs);
    assert data == body + data[|data| - 32..];
  }

  /** Manifests decode to exactly the coherent records that encode to them. */
  lemma ManifestBijection(c: Content, data: Bytes, m: Meta)
    ensures DecodeManifest(c, data) == Ok(m) <==> WellTypedMeta(m) && Coherent(m) && EncodeManifest(c, m) == data
  {
    if DecodeManifest(c, data).Ok? {
      ManifestInvertsDecode(c, data);
    }
    if WellTypedMeta(m) && Coherent(m) {
      DecodeInvertsManifest(c, m);
    }
  }

  /**
   * Writing a manifest never checks the layout, reading one does: a coherent record can be read back
   * if and only if its layout suits its shape.
   */
  lemma ReadableIffLayoutValid(c: Content, m: Meta)
    requires TypedMeta(m) && Coherent(m)
    ensures DecodeManifest(c, EncodeManifest(c, m)).Ok? <==> ValidLayout(m.compat.layout, m.compat.dims)
    ensures ValidLayout(m.compat.layout, m.compat.dims) ==> DecodeManifest(c, EncodeManifest(c, m)) == Ok(m)
  {
    if ValidLayout(m.compat.layout, m.compat.dims) {
      DecodeInvertsManifest(c, m);
    } else {
      MetaFits(m);
      AnchorSplit(ManifestBody(m), c.hash(ManifestBody(m)));
      RecordBijection(MANIFEST, ManifestBody(m), MetaValues(m));
      if Decode(Encode(m.compat)).Ok? {
        EncodeInvertsDecode(Encode(m.compat));
        EncodeInjective(m.compat, Decode(Encode(m.compat)).value);
      }
    }
  }

  /** The byte length of an accepted manifest is the volume times the element size. */
  lemma CoherentLength(m: Meta)
    requires Coherent(m)
    ensures m.numel == Volume(m.compat.dims) && m.byteLen == Mul(m.numel, ElementSize(m.compat.dtype))
  {
    NumelIsVolume(m.compat.dims);
  }

  /** Its blocks partition [0, byteLen) if and only if no block's end wraps around the machine word. */
  lemma AcceptedBlocksPartitionIff(c: Content, data: Bytes)
    requires DecodeManifest(c, data).Ok?
    ensures var m := DecodeManifest(c, data).value; Covers(m.blocks, 0, m.byteLen) <==> NoWrap(m.blocks)
  {
    ManifestInvertsDecode(c, data);
    var m := DecodeManifest(c, data).value;
    if NoWrap(m.blocks) {
      AcceptanceIsExactCover(m.blocks, m.byteLen);
    }
  }

  /** A manifest with wrapping blocks is accepted although its blocks cover nothing of the kind. */
  lemma WrappingManifestIsAccepted(c: Content, d: Digest)
    ensures exists m :: DecodeManifest(c, EncodeManifest(c, m)) == Ok(m) && !Covers(m.blocks, 0, m.byteLen)
  {
    var blocks := [BlockRef(d, 0, 1, 0), BlockRef(d, 1, U64_MAX, 0), BlockRef(d, 0, 2, 0)];
    var k := CompatKey(None, None, None, None, 13, [2], RowMajor, 0, None, None, 0, 0);
    var m := Meta([], [], [], 0, k, 2, 2, 0, blocks);
    WrappedListIsAccepted(d);
    assert CheckedProduct(2, [2][1..]) == Ok(2);
    assert Numel([2]) == Ok(2);
    EncodeShort(k);
    assert WellTypedMeta(m) && Coherent(m);
    DecodeInvertsManifest(c, m);
  }

  lemma EncodeShort(k: CompatKey)
    requires k == CompatKey(None, None, None, None, 13, [2], RowMajor, 0, None, None, 0, 0)
    ensures |Encode(k)| < TWO_64
  {
    var h, t, fs := HeadValues(k), TailValues(k), Tail(0, U64_MAX);
    assert fs == REST && t == RestValues(k);
    assert PrintNums([2][1..]) == [];
    assert |PrintNums([2])| == 8;
    PrintAllBound(HEAD, h);
    PrintAllBound(fs, t);
  }

  lemma {:induction false} PrintAllBound(fs: seq<Field>, vs: seq<Value>)
    requires |fs| == |vs| && forall i :: 0 <= i < |fs| ==> |Print(fs[i], vs[i])| <= 16
    ensures |PrintAll(fs, vs)| <= 16 * |fs|
  {
    if fs != [] {
      assert |Print(fs[0], vs[0])| <= 16;
      assert forall i :: 0 <= i < |fs| - 1 ==> fs[1..][i] == fs[i + 1] && vs[1..][i] == vs[i + 1];
      PrintAllBound(fs[1..], vs[1..]);
    }
  }

  method WriteManifest(c: Content, m: Meta) returns (data: Bytes)
    requires TypedMeta(m) && |m.blocks| <= MAX_BLOCKS
    ensures data == EncodeManifest(c, m)
  {
    hide PrintAll, Encode, TypedMeta;
    MetaFits(m);
    var w := new Writer();
    w.PutAll(MANIFEST, MetaValues(m));
    assert [] + ManifestBody(m) == ManifestBody(m);
    data := w.buf + c.hash(w.buf);
  }

  method ReadManifest(c: Content, data: Bytes) returns (r: Result<Meta>)
    ensures r == DecodeManifest(c, data)
  {
    hide DecodeRecord, FromManifest;
    if |data| < 32 {
      return Err(Persistence);
    }
    var body := data[..|data| - 32];
    if c.hash(body) != data[|data| - 32..] {
      return Err(Persistence);
    }
    var rd := new Reader(body);
    var vs :- rd.GetLast(MANIFEST);
    if |vs| == |MANIFEST| {
      return FromManifest(vs);
    }
    return Err(Persistence);
  }
}

/** The compatibility key, the logical address, and their canonical encodings. */
module Compat {
  import opened Prelude
  import opened Shapes
  import opened Wire

  // Enumerations are represented by their wire codes.
  type Dtype = c: nat | 1 <= c <= 14 witness 1
  type Endianness = c: nat | c <= 1
  type Quantization = c: nat | c <= 3
  type Mutability = c: nat | c <= 1

  function ElementSize(d: Dtype): (n: u64)
    ensures 1 <= n <= 8
  {
    if d in {1, 6, 10} then 8 else if d in {2, 7, 11} then 4 else if d in {3, 4, 8, 12} then 2 else 1
  }

  datatype CompatKey = CompatKey(
    model: Option<Bytes>, modelRevision: Option<Bytes>, runtimeVersion: Option<Bytes>, operation: Option<Bytes>,
    dtype: Dtype, dims: seq<u64>, layout: Layout, endianness: Endianness,
    device: Option<Bytes>, precision: Option<Bytes>, quant: Quantization, mutability: Mutability)

  ghost predicate OptShortText(o: Option<Bytes>) {
    o.Some? ==> ShortText(o.value)
  }

  /** What the field types already guarantee of any key: texts are UTF-8, the shape is within its bounds. */
  ghost predicate WellTyped(k: CompatKey) {
    && OptShortText(k.model) && OptShortText(k.modelRevision) && OptShortText(k.runtimeVersion)
    && OptShortText(k.operation)
    && OptShortText(k.device) && OptShortText(k.precision)
    && |k.dims| <= MAX_RANK && (forall i :: 0 <= i < |k.dims| ==> k.dims[i] <= MAX_DIM)
    && (k.layout.Strided? ==> |k.layout.strides| < TWO_64)
  }

  /** ... and, in addition, the layout suits the shape. */
  ghost predicate ValidKey(k: CompatKey) {
    WellTyped(k) && ValidLayout(k.layout, k.dims)
  }

  function LayoutCode(l: Layout): nat {
    match l
    case RowMajor => 0
    case ColMajor => 1
    case Strided(_) => 2
  }

  const HEAD: seq<Field> :=
    [Num(1, 1, 1), OptText, OptText, OptText, OptText, Num(1, 1, 14), Nums(MAX_RANK, MAX_DIM), Num(1, 0, 2)]

  const REST: seq<Field> := [Num(1, 0, 1), OptText, OptText, Num(1, 0, 3), Num(1, 0, 1)]

  /** The fields after the layout code; only a strided layout carries a stride list. */
  function Tail(code: nat, maxStrides: nat): seq<Field> {
    (if code == 2 then [Nums(maxStrides, U64_MAX)] else []) + REST
  }

  function HeadValues(k: CompatKey): (vs: seq<Value>)
    ensures |vs| == |HEAD|
  {
    [VNum(1), VOpt(k.model), VOpt(k.modelRevision), VOpt(k.runtimeVersion), VOpt(k.operation),
     VNum(k.dtype), VNums(k.dims), VNum(LayoutCode(k.layout))]
  }

  function RestValues(k: CompatKey): (vs: seq<Value>)
    ensures |vs| == |REST|
  {
    [VNum(k.endianness), VOpt(k.device), VOpt(k.precision), VNum(k.quant), VNum(k.mutability)]
  }

  function TailValues(k: CompatKey): (vs: seq<Value>)
    ensures |vs| == |Tail(LayoutCode(k.layout), 0)|
  {
    (if k.layout.Strided? then [VNums(k.layout.strides)] else []) + RestValues(k)
  }

  function Encode(k: CompatKey): Bytes {
    PrintAll(HEAD, HeadValues(k)) + PrintAll(Tail(LayoutCode(k.layout), U64_MAX), TailValues(k))
  }

  /** The key that a head and a tail of parsed values describe. */
  function FromValues(h: seq<Value>, t: seq<Value>): Option<CompatKey>
    requires |h| == |HEAD| && h[7].VNum? && |t| == |Tail(h[7].n, 0)|
  {
    var strided := h[7].n == 2;
    var r := if strided then t[1..] else t;
    if && h[1].VOpt? && h[2].VOpt? && h[3].VOpt? && h[4].VOpt? && h[5].VNum? && 1 <= h[5].n <= 14
       && h[6].VNums? && (forall i :: 0 <= i < |h[6].ns| ==> h[6].ns[i] < TWO_64)
       && (strided ==> t[0].VNums? && forall i :: 0 <= i < |t[0].ns| ==> t[0].ns[i] < TWO_64)
       && r[0].VNum? && r[0].n <= 1 && r[1].VOpt? && r[2].VOpt? && r[3].VNum? && r[3].n <= 3 && r[4].VNum?
       && r[4].n <= 1
    then
      var layout := if strided then Strided(t[0].ns) else if h[7].n == 0 then RowMajor else ColMajor;
      Some(CompatKey(h[1].o, h[2].o, h[3].o, h[4].o, h[5].n, h[6].ns, layout, r[0].n, r[1].o, r[2].o, r[3].n, r[4].n))
    else None
  }

  function Decode(b: Bytes): Result<CompatKey> {
    var (h, rest) :- ParseAll(HEAD, b);
    if !h[7].VNum? then Err(Protocol)
    else
      var t :- DecodeRecord(Tail(h[7].n, MAX_RANK), rest);
      var k := FromValues(h, t);
      if k.None? then Err(Protocol)
      else if !ValidLayout(k.value.layout, k.value.dims) then Err(Geometry)
      else Ok(k.value)
  }

  // ---- Exact inverses ----------------------------------------------------------------------

  lemma PrintIgnoresBound(code: nat, m: nat, n: nat, vs: seq<Value>)
    requires |vs| == |Tail(code, 0)|
    ensures PrintAll(Tail(code, m), vs) == PrintAll(Tail(code, n), vs)
  {
    if code == 2 {
      assert Tail(code, m)[1..] == REST == Tail(code, n)[1..];
    }
  }

  lemma HeadFits(k: CompatKey)
    requires WellTyped(k)
    ensures FitsAll(HEAD, HeadValues(k))
  {
    Powers();
  }

  lemma TailFits(k: CompatKey, maxStrides: nat)
    requires WellTyped(k) && (k.layout.Strided? ==> |k.layout.strides| <= maxStrides)
    ensures FitsAll(Tail(LayoutCode(k.layout), maxStrides), TailValues(k))
  {
    Powers();
  }

  lemma FromToValues(k: CompatKey)
    ensures FromValues(HeadValues(k), TailValues(k)) == Some(k)
  {
    if k.layout.Strided? {
      assert TailValues(k)[1..] == RestValues(k);
    }
  }

  lemma HeadShape(h: seq<Value>)
    requires FitsAll(HEAD, h)
    ensures |h| == 8 && h[0] == VNum(1) && h[1].VOpt? && h[2].VOpt? && h[3].VOpt? && h[4].VOpt? && h[5].VNum?
    ensures h[6].VNums? && h[7].VNum?
    ensures OptShortText(h[1].o) && OptShortText(h[2].o) && OptShortText(h[3].o) && OptShortText(h[4].o)
    ensures 1 <= h[5].n <= 14 && |h[6].ns| <= MAX_RANK
    ensures (forall i :: 0 <= i < |h[6].ns| ==> h[6].ns[i] <= MAX_DIM && h[6].ns[i] < TWO_64) && h[7].n <= 2
  {
    hide ShortText, Power;
    assert Fits(HEAD[0], h[0]) && Fits(HEAD[1], h[1]) && Fits(HEAD[2], h[2]) && Fits(HEAD[3], h[3]);
    assert Fits(HEAD[4], h[4]) && Fits(HEAD[5], h[5]) && Fits(HEAD[6], h[6]) && Fits(HEAD[7], h[7]);
  }

  lemma RestShape(r: seq<Value>)
    requires FitsAll(REST, r)
    ensures |r| == 5 && r[0].VNum? && r[0].n <= 1 && r[1].VOpt? && r[2].VOpt? && r[3].VNum? && r[3].n <= 3 && r[4].VNum?
    ensures r[4].n <= 1
    ensures OptShortText(r[1].o) && OptShortText(r[2].o)
  {
    hide ShortText, Power;
    assert Fits(REST[0], r[0]) && Fits(REST[1], r[1]) && Fits(REST[2], r[2]) && Fits(REST[3], r[3])
      && Fits(REST[4], r[4]);
  }

  lemma TailShape(code: nat, t: seq<Value>, maxStrides: nat)
    requires FitsAll(Tail(code, maxStrides), t) && maxStrides < TWO_64
    ensures code == 2 ==>
      |t| == 6 && t[0].VNums? && |t[0].ns| < TWO_64 && (forall i :: 0 <= i < |t[0].ns| ==> t[0].ns[i] < TWO_64)
        && FitsAll(REST, t[1..])
    ensures code != 2 ==> |t| == 5 && FitsAll(REST, t)
  {
    hide ShortText, Power;
    var fs := Tail(code, maxStrides);
    if code == 2 {
      assert Fits(fs[0], t[0]) && fs[1..] == REST;
      assert forall i :: 0 <= i < |REST| ==> REST[i] == fs[i + 1] && t[1..][i] == t[i + 1];
    }
  }

  lemma ToFromValues(h: seq<Value>, t: seq<Value>, maxStrides: nat)
    requires FitsAll(HEAD, h) && |h| == 8 && h[7].VNum? && FitsAll(Tail(h[7].n, maxStrides), t) && maxStrides < TWO_64
    ensures var o := FromValues(h, t);
      o.Some? && WellTyped(o.value) && HeadValues(o.value) == h && TailValues(o.value) == t
  {
    hide FitsAll, ShortText;
    HeadShape(h);
    TailShape(h[7].n, t, maxStrides);
    if h[7].n == 2 {
      assert t == [t[0]] + t[1..];
      RestShape(t[1..]);
    } else {
      RestShape(t);
    }
  }

  /** Decoding an encoding gives the key back: for every valid key. */
  lemma DecodeInvertsEncode(k: CompatKey)
    requires ValidKey(k)
    ensures Decode(Encode(k)) == Ok(k)
  {
    var code := LayoutCode(k.layout);
    var tail := PrintAll(Tail(code, MAX_RANK), TailValues(k));
    PrintIgnoresBound(code, U64_MAX, MAX_RANK, TailValues(k));
    HeadFits(k);
    TailFits(k, MAX_RANK);
    ParsePrintAll(HEAD, HeadValues(k), tail);
    RecordBijection(Tail(code, MAX_RANK), tail, TailValues(k));
    FromToValues(k);
  }

  /** Whatever decodes is valid and re-encodes to the very same bytes. */
  lemma EncodeInvertsDecode(b: Bytes)
    requires Decode(b).Ok?
    ensures ValidKey(Decode(b).value) && Encode(Decode(b).value) == b
  {
    PrintParseAll(HEAD, b);
    var (h, rest) := ParseAll(HEAD, b).value;
    var t := DecodeRecord(Tail(h[7].n, MAX_RANK), rest).value;
    RecordBijection(Tail(h[7].n, MAX_RANK), rest, t);
    assert Fits(HEAD[7], h[7]);
    ToFromValues(h, t, MAX_RANK);
    PrintIgnoresBound(h[7].n, U64_MAX, MAX_RANK, t);
  }

  /** The codec is a bijection between valid keys and accepted byte strings. */
  lemma CodecBijection(b: Bytes, k: CompatKey)
    ensures Decode(b) == Ok(k) <==> ValidKey(k) && Encode(k) == b
  {
    if Decode(b).Ok? {
      EncodeInvertsDecode(b);
    }
    if ValidKey(k) {
      DecodeInvertsEncode(k);
    }
  }

  /** No two keys share an encoding, whether or not their layouts are valid. */
  lemma EncodeInjective(k: CompatKey, l: CompatKey)
    requires WellTyped(k) && WellTyped(l) && Encode(k) == Encode(l)
    ensures k == l
  {
    var kt := PrintAll(Tail(LayoutCode(k.layout), U64_MAX), TailValues(k));
    var lt := PrintAll(Tail(LayoutCode(l.layout), U64_MAX), TailValues(l));
    HeadFits(k);
    HeadFits(l);
    ParsePrintAll(HEAD, HeadValues(k), kt);
    ParsePrintAll(HEAD, HeadValues(l), lt);
    assert HeadValues(k)[7] == HeadValues(l)[7] && kt == lt;
    TailFits(k, U64_MAX);
    TailFits(l, U64_MAX);
    RecordBijection(Tail(LayoutCode(k.layout), U64_MAX), kt, TailValues(k));
    RecordBijection(Tail(LayoutCode(l.layout), U64_MAX), lt, TailValues(l));
    FromToValues(k);
    FromToValues(l);
  }

  /** The compatibility identity. */
  function CompatId(c: Content, k: CompatKey): Digest {
    c.hash(Encode(k))
  }

  method EncodeKey(k: CompatKey) returns (b: Bytes)
    requires WellTyped(k)
    ensures b == Encode(k)
  {
    HeadFits(k);
    TailFits(k, U64_MAX);
    b := EncodeParts(HEAD, HeadValues(k), Tail(LayoutCode(k.layout), U64_MAX), TailValues(k));
  }

  method DecodeKey(b: Bytes) returns (r: Result<CompatKey>)
    ensures r == Decode(b)
  {
    var rd := new Reader(b);
    var h :- rd.GetAll(HEAD);
    if !h[7].VNum? {
      return Err(Protocol);
    }
    var t :- rd.GetLast(Tail(h[7].n, MAX_RANK));
    var k := FromValues(h, t);
    if k.None? {
      return Err(Protocol);
    }
    var ok := ValidateLayout(k.value.layout, k.value.dims);
    if !ok {
      return Err(Geometry);
    }
    return Ok(k.value);
  }

  // ---- Logical addresses -------------------------------------------------------------------

  datatype Address = Address(namespace: Bytes, key: Bytes, generation: u64)

  ghost predicate WellTypedAddress(a: Address) {
    ShortText(a.namespace) && ShortText(a.key)
  }

  const ADDRESS: seq<Field> := [Num(1, 1, 1), Text, Text, U64]

  function EncodeAddress(a: Address): Bytes {
    PrintAll(ADDRESS, [VNum(1), VBlob(a.namespace), VBlob(a.key), VNum(a.generation)])
  }

  /** The stable object identity. */
  function ObjectId(c: Content, a: Address): Digest {
    c.hash(EncodeAddress(a))
  }

  lemma AddressInjective(a: Address, b: Address)
    requires WellTypedAddress(a) && WellTypedAddress(b) && EncodeAddress(a) == EncodeAddress(b)
    ensures a == b
  {
    Powers();
    var va := [VNum(1), VBlob(a.namespace), VBlob(a.key), VNum(a.generation)];
    var vb := [VNum(1), VBlob(b.namespace), VBlob(b.key), VNum(b.generation)];
    assert FitsAll(ADDRESS, va) && FitsAll(ADDRESS, vb);
    RecordBijection(ADDRESS, EncodeAddress(a), va);
    RecordBijection(ADDRESS, EncodeAddress(b), vb);
    assert va[1].b == vb[1].b && va[2].b == vb[2].b && va[3].n == vb[3].n;
  }
}

/**
 * The binary codec under every on-disk and on-wire record: little-endian words, length-prefixed
 * blobs and texts, optional texts, counted lists. A record is a list of fields; printing and parsing
 * are proved inverse once, for every list of fields.
 */
module Wire {
  import opened Prelude
  import opened Storage

  // ---- Little-endian words -----------------------------------------------------------------

  function Power(w: nat): nat {
    if w == 0 then 1 else 256 * Power(w - 1)
  }

  /** The i-th base-256 digit. */
  function Digit(n: nat, i: nat): byte
    decreases i
  {
    if i == 0 then n % 256 else Digit(n / 256, i - 1)
  }

  function ToLE(n: nat, w: nat): (b: Bytes)
    ensures |b| == w
  {
    seq(w, i requires 0 <= i => Digit(n, i))
  }

  lemma ToLEStep(n: nat, w: nat)
    requires w > 0
    ensures ToLE(n, w) == [n % 256] + ToLE(n / 256, w - 1)
  {
  }

  function FromLE(b: Bytes): (n: nat)
    ensures n < Power(|b|)
  {
    if b == [] then 0 else b[0] + 256 * FromLE(b[1..])
  }

  lemma {:induction false} FromToLE(n: nat, w: nat)
    requires n < Power(w)
    ensures FromLE(ToLE(n, w)) == n
    decreases w
  {
    if w > 0 {
      FromToLE(n / 256, w - 1);
      ToLEStep(n, w);
      assert ToLE(n, w)[1..] == ToLE(n / 256, w - 1);
    }
  }

  lemma {:induction false} ToFromLE(b: Bytes)
    ensures ToLE(FromLE(b), |b|) == b
  {
    if b != [] {
      ToFromLE(b[1..]);
      assert (b[0] + 256 * FromLE(b[1..])) % 256 == b[0] && (b[0] + 256 * FromLE(b[1..])) / 256 == FromLE(b[1..]);
      ToLEStep(FromLE(b), |b|);
      assert b == [b[0]] + b[1..];
    }
  }

  lemma Powers()
    ensures Power(1) == 256 && Power(4) == TWO_32 && Power(8) == TWO_64
  {
    assert Power(2) == 65536 && Power(3) == 16777216 && Power(4) == TWO_32;
    assert Power(5) == 256 * Power(4) && Power(6) == 256 * Power(5) && Power(7) == 256 * Power(6);
  }

  // ---- UTF-8 -------------------------------------------------------------------------------

  predicate Continues(b: Bytes, from: nat, count: nat) {
    from + count <= |b| && forall i :: from <= i < from + count ==> 0x80 <= b[i] <= 0xBF
  }

  /** The number of bytes of the well-formed scalar value at the front, or 0 if there is none. */
  function ScalarLength(b: Bytes): (n: nat)
    ensures n <= |b|
  {
    if b == [] then 0
    else if b[0] < 0x80 then 1
    else if 0xC2 <= b[0] <= 0xDF && Continues(b, 1, 1) then 2
    else if 0xE0 <= b[0] <= 0xEF && Continues(b, 1, 2) && (b[0] == 0xE0 ==> b[1] >= 0xA0)
      && (b[0] == 0xED ==> b[1] <= 0x9F) then 3
    else if 0xF0 <= b[0] <= 0xF4 && Continues(b, 1, 3) && (b[0] == 0xF0 ==> b[1] >= 0x90)
      && (b[0] == 0xF4 ==> b[1] <= 0x8F) then 4
    else 0
  }

  predicate ValidUtf8(b: Bytes) {
    b == [] || (ScalarLength(b) > 0 && ValidUtf8(b[ScalarLength(b)..]))
  }

  // ---- Fields ------------------------------------------------------------------------------

  datatype Field =
    | Num(width: nat, lo: nat, hi: nat)           // a word of `width` bytes, accepted only within lo..hi
    | Blob
    | Text                                        // a blob that is well-formed UTF-8
    | OptText                                     // a presence flag, then possibly a text
    | Nums(maxCount: nat, maxValue: nat)          // a count, then that many 8-byte words
    | Refs(maxCount: nat)                         // a count, then that many block references

  datatype Value =
    | VNum(n: nat) | VBlob(b: Bytes) | VOpt(o: Option<Bytes>) | VNums(ns: seq<nat>) | VRefs(rs: seq<BlockRef>)

  const U8 := Num(1, 0, 255)
  const U32 := Num(4, 0, TWO_32 - 1)
  const U64 := Num(8, 0, U64_MAX)
  const BOOL := Num(1, 0, 1)

  ghost predicate ShortText(b: Bytes) {
    |b| < TWO_64 && ValidUtf8(b)
  }

  /** The values a field can carry. */
  ghost predicate Fits(f: Field, v: Value) {
    match f
    case Num(w, lo, hi) => v.VNum? && lo <= v.n <= hi && v.n < Power(w)
    case Blob => v.VBlob? && |v.b| < TWO_64
    case Text => v.VBlob? && ShortText(v.b)
    case OptText => v.VOpt? && (v.o.Some? ==> ShortText(v.o.value))
    case Nums(maxCount, maxValue) =>
      v.VNums? && |v.ns| <= maxCount && |v.ns| < TWO_64 && forall i :: 0 <= i < |v.ns| ==>
        v.ns[i] <= maxValue && v.ns[i] < TWO_64
    case Refs(maxCount) => v.VRefs? && |v.rs| <= maxCount && |v.rs| < TWO_64
  }

  function PrintBlob(b: Bytes): Bytes {
    ToLE(|b|, 8) + b
  }

  function PrintNums(ns: seq<nat>): Bytes {
    if ns == [] then [] else ToLE(ns[0], 8) + PrintNums(ns[1..])
  }

  function PrintRef(r: BlockRef): Bytes {
    PrintBlob(r.hash) + ToLE(r.offset, 8) + ToLE(r.len, 8) + ToLE(r.crc, 4)
  }

  function PrintRefs(rs: seq<BlockRef>): Bytes {
    if rs == [] then [] else PrintRef(rs[0]) + PrintRefs(rs[1..])
  }

  function Print(f: Field, v: Value): Bytes {
    match (f, v)
    case (Num(w, _, _), VNum(n)) => ToLE(n, w)
    case (Blob, VBlob(b)) => PrintBlob(b)
    case (Text, VBlob(b)) => PrintBlob(b)
    case (OptText, VOpt(o)) => if o.Some? then ToLE(1, 1) + PrintBlob(o.value) else ToLE(0, 1)
    case (Nums(_, _), VNums(ns)) => ToLE(|ns|, 8) + PrintNums(ns)
    case (Refs(_), VRefs(rs)) => ToLE(|rs|, 8) + PrintRefs(rs)
    case (_, _) => []
  }

  /** A parse either fails or yields a value and the bytes after it. */
  type Parse<T> = Result<(T, Bytes)>

  function ParseNum(w: nat, b: Bytes): Parse<nat> {
    if w > |b| then Err(Protocol) else Ok((FromLE(b[..w]), b[w..]))
  }

  function ParseBlob(b: Bytes): Parse<Bytes> {
    var (n, rest) :- ParseNum(8, b);
    if n > |rest| then Err(Protocol) else Ok((rest[..n], rest[n..]))
  }

  function ParseText(b: Bytes): Parse<Bytes> {
    var (t, rest) :- ParseBlob(b);
    if ValidUtf8(t) then Ok((t, rest)) else Err(Protocol)
  }

  function ParseNums(count: nat, maxValue: nat, b: Bytes): Parse<seq<nat>>
    decreases count
  {
    if count == 0 then Ok(([], b))
    else
      var (n, b1) :- ParseNum(8, b);
      if n > maxValue then Err(Protocol)
      else
        var (ns, b2) :- ParseNums(count - 1, maxValue, b1);
        Ok(([n] + ns, b2))
  }

  function ParseRef(b: Bytes): Parse<BlockRef> {
    var (h, b1) :- ParseBlob(b);
    if |h| != 32 then Err(Persistence)
    else
      var (offset, b2) :- ParseNum(8, b1);
      var (len, b3) :- ParseNum(8, b2);
      var (crc, b4) :- ParseNum(4, b3);
      Powers();
      Ok((BlockRef(h, offset, len, crc), b4))
  }

  function ParseRefs(count: nat, b: Bytes): Parse<seq<BlockRef>>
    decreases count
  {
    if count == 0 then Ok(([], b))
    else
      var (r, b1) :- ParseRef(b);
      var (rs, b2) :- ParseRefs(count - 1, b1);
      Ok(([r] + rs, b2))
  }

  function ParseField(f: Field, b: Bytes): Parse<Value> {
    match f
    case Num(w, lo, hi) =>
      var (n, rest) :- ParseNum(w, b);
      if lo <= n <= hi then Ok((VNum(n), rest)) else Err(Protocol)
    case Blob =>
      var (x, rest) :- ParseBlob(b);
      Ok((VBlob(x), rest))
    case Text =>
      var (x, rest) :- ParseText(b);
      Ok((VBlob(x), rest))
    case OptText =>
      var (p, rest) :- ParseNum(1, b);
      if p == 0 then Ok((VOpt(None), rest))
      else if p > 1 then Err(Protocol)
      else
        var (x, rest2) :- ParseText(rest);
        Ok((VOpt(Some(x)), rest2))
    case Nums(maxCount, maxValue) =>
      var (n, rest) :- ParseNum(8, b);
      if n > maxCount then Err(Protocol)
      else
        var (ns, rest2) :- ParseNums(n, maxValue, rest);
        Ok((VNums(ns), rest2))
    case Refs(maxCount) =>
      var (n, rest) :- ParseNum(8, b);
      if n > maxCount then Err(Protocol)
      else
        var (rs, rest2) :- ParseRefs(n, rest);
        Ok((VRefs(rs), rest2))
  }

  // ---- Printing then parsing ---------------------------------------------------------------

  lemma ParsePrintNum(n: nat, w: nat, rest: Bytes)
    requires n < Power(w)
    ensures ParseNum(w, ToLE(n, w) + rest) == Ok((n, rest))
  {
    FromToLE(n, w);
    assert (ToLE(n, w) + rest)[..w] == ToLE(n, w) && (ToLE(n, w) + rest)[w..] == rest;
  }

  lemma ParsePrintBlob(b: Bytes, rest: Bytes)
    requires |b| < TWO_64
    ensures ParseBlob(PrintBlob(b) + rest) == Ok((b, rest))
  {
    Powers();
    assert PrintBlob(b) + rest == ToLE(|b|, 8) + (b + rest);
    ParsePrintNum(|b|, 8, b + rest);
    assert (b + rest)[..|b|] == b && (b + rest)[|b|..] == rest;
  }

  lemma {:induction false} ParsePrintNums(ns: seq<nat>, maxValue: nat, rest: Bytes)
    requires forall i :: 0 <= i < |ns| ==> ns[i] <= maxValue && ns[i] < TWO_64
    ensures ParseNums(|ns|, maxValue, PrintNums(ns) + rest) == Ok((ns, rest))
  {
    if ns == [] {
      assert PrintNums(ns) + rest == rest;
    } else {
      Powers();
      assert PrintNums(ns) + rest == ToLE(ns[0], 8) + (PrintNums(ns[1..]) + rest);
      ParsePrintNum(ns[0], 8, PrintNums(ns[1..]) + rest);
      ParsePrintNums(ns[1..], maxValue, rest);
      assert ns == [ns[0]] + ns[1..];
    }
  }

  lemma ParsePrintRef(r: BlockRef, rest: Bytes)
    ensures ParseRef(PrintRef(r) + rest) == Ok((r, rest))
  {
    Powers();
    var t3 := ToLE(r.crc, 4) + rest;
    var t2 := ToLE(r.len, 8) + t3;
    var t1 := ToLE(r.offset, 8) + t2;
    assert PrintRef(r) + rest == PrintBlob(r.hash) + t1;
    ParsePrintBlob(r.hash, t1);
    ParsePrintNum(r.offset, 8, t2);
    ParsePrintNum(r.len, 8, t3);
    ParsePrintNum(r.crc, 4, rest);
  }

  lemma {:induction false} ParsePrintRefs(rs: seq<BlockRef>, rest: Bytes)
    ensures ParseRefs(|rs|, PrintRefs(rs) + rest) == Ok((rs, rest))
  {
    if rs == [] {
      assert PrintRefs(rs) + rest == rest;
    } else {
      assert PrintRefs(rs) + rest == PrintRef(rs[0]) + (PrintRefs(rs[1..]) + rest);
      ParsePrintRef(rs[0], PrintRefs(rs[1..]) + rest);
      ParsePrintRefs(rs[1..], rest);
      assert rs == [rs[0]] + rs[1..];
    }
  }

  lemma ParsePrintOpt(o: Option<Bytes>, rest: Bytes)
    requires Fits(OptText, VOpt(o))
    ensures ParseField(OptText, Print(OptText, VOpt(o)) + rest) == Ok((VOpt(o), rest))
  {
    if o.Some? {
      assert Print(OptText, VOpt(o)) + rest == ToLE(1, 1) + (PrintBlob(o.value) + rest);
      ParsePrintNum(1, 1, PrintBlob(o.value) + rest);
      ParsePrintBlob(o.value, rest);
    } else {
      ParsePrintNum(0, 1, rest);
    }
  }

  lemma ParsePrintCounted(f: Field, v: Value, rest: Bytes)
    requires Fits(f, v) && (f.Nums? || f.Refs?)
    ensures ParseField(f, Print(f, v) + rest) == Ok((v, rest))
  {
    Powers();
    var items := if f.Nums? then PrintNums(v.ns) else PrintRefs(v.rs);
    var count := if f.Nums? then |v.ns| else |v.rs|;
    assert Print(f, v) + rest == ToLE(count, 8) + (items + rest);
    ParsePrintNum(count, 8, items + rest);
    if f.Nums? {
      ParsePrintNums(v.ns, f.maxValue, rest);
    } else {
      ParsePrintRefs(v.rs, rest);
    }
  }

  /** Parsing what was printed gives the value back and leaves what follows. */
  lemma ParsePrint(f: Field, v: Value, rest: Bytes)
    requires Fits(f, v)
    ensures ParseField(f, Print(f, v) + rest) == Ok((v, rest))
  {
    match f
    case Num(w, _, _) =>
      ParsePrintNum(v.n, w, rest);
    case Blob =>
      ParsePrintBlob(v.b, rest);
    case Text =>
      ParsePrintBlob(v.b, rest);
    case OptText =>
      ParsePrintOpt(v.o, rest);
    case Nums(_, _) =>
      ParsePrintCounted(f, v, rest);
    case Refs(_) =>
      ParsePrintCounted(f, v, rest);
  }

  // ---- Parsing then printing ---------------------------------------------------------------

  lemma PrintParseNum(w: nat, b: Bytes)
    requires w <= |b|
    ensures var n := FromLE(b[..w]); n < Power(w) && b == ToLE(n, w) + b[w..]
  {
    var head := b[..w];
    assert b == head + b[w..];
    ToFromLE(head);
  }

  lemma PrintParseBlob(b: Bytes)
    requires ParseBlob(b).Ok?
    ensures var (x, rest) := ParseBlob(b).value; |x| < TWO_64 && b == PrintBlob(x) + rest
  {
    Powers();
    PrintParseNum(8, b);
    var (x, rest) := ParseBlob(b).value;
    assert b[8..] == x + rest;
  }

  lemma {:induction false} PrintParseNums(count: nat, maxValue: nat, b: Bytes)
    requires ParseNums(count, maxValue, b).Ok?
    ensures var (ns, rest) := ParseNums(count, maxValue, b).value;
      && |ns| == count && b == PrintNums(ns) + rest
      && forall i :: 0 <= i < |ns| ==> ns[i] <= maxValue && ns[i] < TWO_64
    decreases count
  {
    if count == 0 {
      assert PrintNums([]) + b == b;
    } else {
      Powers();
      PrintParseNum(8, b);
      PrintParseNums(count - 1, maxValue, b[8..]);
      var (ns, rest) := ParseNums(count, maxValue, b).value;
      assert PrintNums(ns) + rest == ToLE(ns[0], 8) + (PrintNums(ns[1..]) + rest);
    }
  }

  lemma PrintParseRef(b: Bytes)
    requires ParseRef(b).Ok?
    ensures var (r, rest) := ParseRef(b).value; b == PrintRef(r) + rest
  {
    Powers();
    PrintParseBlob(b);
    var (h, b1) := ParseBlob(b).value;
    PrintParseNum(8, b1);
    PrintParseNum(8, b1[8..]);
    PrintParseNum(4, b1[8..][8..]);
  }

  lemma PrintRefsStep(r: BlockRef, rs: seq<BlockRef>, rest: Bytes)
    ensures PrintRefs([r] + rs) + rest == PrintRef(r) + (PrintRefs(rs) + rest)
  {
    assert ([r] + rs)[1..] == rs;
  }

  lemma {:induction false} PrintParseRefs(count: nat, b: Bytes)
    requires ParseRefs(count, b).Ok?
    ensures var (rs, rest) := ParseRefs(count, b).value; |rs| == count && b == PrintRefs(rs) + rest
    decreases count
  {
    if count == 0 {
      assert PrintRefs([]) + b == b;
    } else {
      PrintParseRef(b);
      var (r, b1) := ParseRef(b).value;
      PrintParseRefs(count - 1, b1);
      var (rs, rest) := ParseRefs(count - 1, b1).value;
      PrintRefsStep(r, rs, rest);
    }
  }

  lemma PrintParseOpt(b: Bytes)
    requires ParseField(OptText, b).Ok?
    ensures var (v, rest) := ParseField(OptText, b).value; Fits(OptText, v) && b == Print(OptText, v) + rest
  {
    PrintParseNum(1, b);
    if FromLE(b[..1]) == 1 {
      PrintParseBlob(b[1..]);
      var (x, rest) := ParseBlob(b[1..]).value;
      assert ToLE(1, 1) + (PrintBlob(x) + rest) == (ToLE(1, 1) + PrintBlob(x)) + rest;
    }
  }

  lemma PrintParseCounted(f: Field, b: Bytes)
    requires ParseField(f, b).Ok? && (f.Nums? || f.Refs?)
    ensures var (v, rest) := ParseField(f, b).value; Fits(f, v) && b == Print(f, v) + rest
  {
    Powers();
    PrintParseNum(8, b);
    var count := FromLE(b[..8]);
    var (v, rest) := ParseField(f, b).value;
    if f.Nums? {
      PrintParseNums(count, f.maxValue, b[8..]);
      assert ToLE(count, 8) + (PrintNums(v.ns) + rest) == (ToLE(count, 8) + PrintNums(v.ns)) + rest;
    } else {
      PrintParseRefs(count, b[8..]);
      assert ToLE(count, 8) + (PrintRefs(v.rs) + rest) == (ToLE(count, 8) + PrintRefs(v.rs)) + rest;
    }
  }

  /** Whatever parses is the print of the value found, followed by the remaining bytes. */
  lemma PrintParse(f: Field, b: Bytes)
    requires ParseField(f, b).Ok?
    ensures var (v, rest) := ParseField(f, b).value; Fits(f, v) && b == Print(f, v) + rest
  {
    match f
    case Num(w, _, _) =>
      PrintParseNum(w, b);
    case Blob =>
      PrintParseBlob(b);
    case Text =>
      PrintParseBlob(b);
    case OptText =>
      PrintParseOpt(b);
    case Nums(_, _) =>
      PrintParseCounted(f, b);
    case Refs(_) =>
      PrintParseCounted(f, b);
  }

  // ---- Whole records -----------------------------------------------------------------------

  ghost predicate FitsAll(fs: seq<Field>, vs: seq<Value>) {
    |fs| == |vs| && forall i :: 0 <= i < |fs| ==> Fits(fs[i], vs[i])
  }

  function PrintAll(fs: seq<Field>, vs: seq<Value>): Bytes
    requires |fs| == |vs|
  {
    if fs == [] then [] else Print(fs[0], vs[0]) + PrintAll(fs[1..], vs[1..])
  }

  function ParseAll(fs: seq<Field>, b: Bytes): (r: Parse<seq<Value>>)
    ensures r.Ok? ==> |r.value.0| == |fs|
  {
    if fs == [] then Ok(([], b))
    else
      var (v, b1) :- ParseField(fs[0], b);
      var (vs, b2) :- ParseAll(fs[1..], b1);
      Ok(([v] + vs, b2))
  }

  lemma {:induction false} ParsePrintAll(fs: seq<Field>, vs: seq<Value>, rest: Bytes)
    requires FitsAll(fs, vs)
    ensures ParseAll(fs, PrintAll(fs, vs) + rest) == Ok((vs, rest))
  {
    hide Print, ParseField, Fits;
    if fs == [] {
      assert PrintAll(fs, vs) + rest == rest;
    } else {
      assert PrintAll(fs, vs) + rest == Print(fs[0], vs[0]) + (PrintAll(fs[1..], vs[1..]) + rest);
      ParsePrint(fs[0], vs[0], PrintAll(fs[1..], vs[1..]) + rest);
      ParsePrintAll(fs[1..], vs[1..], rest);
      assert vs == [vs[0]] + vs[1..];
    }
  }

  lemma {:induction false} PrintParseAll(fs: seq<Field>, b: Bytes)
    requires ParseAll(fs, b).Ok?
    ensures var (vs, rest) := ParseAll(fs, b).value; FitsAll(fs, vs) && b == PrintAll(fs, vs) + rest
  {
    hide Print, ParseField, Fits;
    if fs == [] {
      assert PrintAll([], []) + b == b;
    } else {
      PrintParse(fs[0], b);
      var (v, b1) := ParseField(fs[0], b).value;
      PrintParseAll(fs[1..], b1);
      var (vs, rest) := ParseAll(fs, b).value;
      assert vs[1..] == ParseAll(fs[1..], b1).value.0;
      assert PrintAll(fs, vs) + rest == Print(fs[0], vs[0]) + (PrintAll(fs[1..], vs[1..]) + rest);
    }
  }

  /** A record is decoded by parsing all its fields and accepting no trailing byte. */
  function DecodeRecord(fs: seq<Field>, b: Bytes): Result<seq<Value>> {
    var (vs, rest) :- ParseAll(fs, b);
    if rest == [] then Ok(vs) else Err(Protocol)
  }

  /** Decoding and printing a record are exact inverses. */
  lemma RecordBijection(fs: seq<Field>, b: Bytes, vs: seq<Value>)
    requires |fs| == |vs|
    ensures DecodeRecord(fs, b) == Ok(vs) <==> FitsAll(fs, vs) && b == PrintAll(fs, vs)
  {
    if DecodeRecord(fs, b) == Ok(vs) {
      PrintParseAll(fs, b);
      assert PrintAll(fs, vs) + [] == PrintAll(fs, vs);
    }
    if FitsAll(fs, vs) && b == PrintAll(fs, vs) {
      assert PrintAll(fs, vs) + [] == PrintAll(fs, vs);
      ParsePrintAll(fs, vs, []);
    }
  }

  // ---- The writer and the reader -----------------------------------------------------------

  class Writer {
    var buf: Bytes

    constructor ()
      ensures buf == []
    {
      buf := [];
    }

    method PutNum(n: nat, w: nat)
      modifies this
      ensures buf == old(buf) + ToLE(n, w)
    {
      var left := n;
      for i := 0 to w
        invariant buf + ToLE(left, w - i) == old(buf) + ToLE(n, w)
      {
        ToLEStep(left, w - i);
        assert buf + ToLE(left, w - i) == (buf + [left % 256]) + ToLE(left / 256, w - i - 1);
        buf := buf + [left % 256];
        left := left / 256;
      }
    }

    method PutBlob(b: Bytes)
      modifies this
      ensures buf == old(buf) + PrintBlob(b)
    {
      PutNum(|b|, 8);
      buf := buf + b;
    }

    method PutNums(ns: seq<nat>)
      modifies this
      ensures buf == old(buf) + PrintNums(ns)
    {
      for i := 0 to |ns|
        invariant buf + PrintNums(ns[i..]) == old(buf) + PrintNums(ns)
      {
        ghost var before := buf;
        PutNum(ns[i], 8);
        assert ns[i..][1..] == ns[i + 1..];
        assert buf + PrintNums(ns[i + 1..]) == before + PrintNums(ns[i..]);
      }
      assert buf + PrintNums(ns[|ns|..]) == buf;
    }

    method PutRefs(rs: seq<BlockRef>)
      modifies this
      ensures buf == old(buf) + PrintRefs(rs)
    {
      hide ToLE, PrintBlob;
      for i := 0 to |rs|
        invariant buf + PrintRefs(rs[i..]) == old(buf) + PrintRefs(rs)
      {
        ghost var before := buf;
        PutBlob(rs[i].hash);
        PutNum(rs[i].offset, 8);
        PutNum(rs[i].len, 8);
        PutNum(rs[i].crc, 4);
        assert buf == before + PrintRef(rs[i]);
        assert rs[i..][1..] == rs[i + 1..];
        assert buf + PrintRefs(rs[i + 1..]) == before + PrintRefs(rs[i..]);
      }
      assert buf + PrintRefs(rs[|rs|..]) == buf;
    }

    method PutOpt(o: Option<Bytes>)
      modifies this
      ensures buf == old(buf) + Print(OptText, VOpt(o))
    {
      if o.Some? {
        PutNum(1, 1);
        PutBlob(o.value);
        assert buf == old(buf) + (ToLE(1, 1) + PrintBlob(o.value));
      } else {
        PutNum(0, 1);
      }
    }

    method PutCounted(f: Field, v: Value)
      requires (f.Nums? && v.VNums?) || (f.Refs? && v.VRefs?)
      modifies this
      ensures buf == old(buf) + Print(f, v)
    {
      if f.Nums? {
        PutNum(|v.ns|, 8);
        PutNums(v.ns);
        assert buf == old(buf) + (ToLE(|v.ns|, 8) + PrintNums(v.ns));
      } else {
        PutNum(|v.rs|, 8);
        PutRefs(v.rs);
        assert buf == old(buf) + (ToLE(|v.rs|, 8) + PrintRefs(v.rs));
      }
    }

    method PutField(f: Field, v: Value)
      requires Fits(f, v)
      modifies this
      ensures buf == old(buf) + Print(f, v)
    {
      match f
      case Num(w, _, _) =>
        PutNum(v.n, w);
      case Blob =>
        PutBlob(v.b);
      case Text =>
        PutBlob(v.b);
      case OptText =>
        PutOpt(v.o);
      case Nums(_, _) =>
        PutCounted(f, v);
      case Refs(_) =>
        PutCounted(f, v);
    }

    method PutAll(fs: seq<Field>, vs: seq<Value>)
      requires FitsAll(fs, vs)
      modifies this
      ensures buf == old(buf) + PrintAll(fs, vs)
      decreases |fs|
    {
      hide Print, Fits;
      if fs != [] {
        PutField(fs[0], vs[0]);
        PutAll(fs[1..], vs[1..]);
        assert buf == old(buf) + (Print(fs[0], vs[0]) + PrintAll(fs[1..], vs[1..]));
      }
    }
  }

  /** Encode one record made of two lists of fields. */
  method EncodeParts(fs: seq<Field>, vs: seq<Value>, gs: seq<Field>, ws: seq<Value>) returns (b: Bytes)
    requires FitsAll(fs, vs) && FitsAll(gs, ws)
    ensures b == PrintAll(fs, vs) + PrintAll(gs, ws)
  {
    var w := new Writer();
    w.PutAll(fs, vs);
    w.PutAll(gs, ws);
    assert [] + PrintAll(fs, vs) == PrintAll(fs, vs);
    return w.buf;
  }

  class Reader {
    const data: Bytes
    var pos: nat

    ghost predicate Valid()
      reads this
    {
      pos <= |data|
    }

    ghost function Rest(): Bytes
      requires Valid()
      reads this
    {
      data[pos..]
    }

    constructor (d: Bytes)
      ensures Valid() && Rest() == d && data == d
    {
      data, pos := d, 0;
    }

    method Take(n: nat) returns (r: Result<Bytes>)
      requires Valid()
      modifies this
      ensures Valid()
      ensures r == if n > |old(Rest())| then Err(Protocol) else Ok(old(Rest())[..n])
      ensures Rest() == if r.Ok? then old(Rest())[n..] else old(Rest())
    {
      if n > |data| - pos {
        return Err(Protocol);
      }
      r := Ok(data[pos..pos + n]);
      assert data[pos..][..n] == data[pos..pos + n] && data[pos..][n..] == data[pos + n..];
      pos := pos + n;
    }

    method GetNum(w: nat) returns (r: Result<nat>)
      requires Valid()
      modifies this
      ensures Valid() && Agrees(r, ParseNum(w, old(Rest())), Rest())
    {
      var b :- Take(w);
      var n: nat, i := 0, w;
      while i > 0
        invariant 0 <= i <= w && n == FromLE(b[i..])
      {
        i := i - 1;
        assert b[i..][0] == b[i] && b[i..][1..] == b[i + 1..];
        n := b[i] + 256 * n;
      }
      assert b[0..] == b;
      return Ok(n);
    }

    method GetBlob() returns (r: Result<Bytes>)
      requires Valid()
      modifies this
      ensures Valid() && Agrees(r, ParseBlob(old(Rest())), Rest())
    {
      var n :- GetNum(8);
      r := Take(n);
    }

    method GetText() returns (r: Result<Bytes>)
      requires Valid()
      modifies this
      ensures Valid() && Agrees(r, ParseText(old(Rest())), Rest())
    {
      var b :- GetBlob();
      if ValidUtf8(b) {
        return Ok(b);
      }
      return Err(Protocol);
    }

    method GetNums(count: nat, maxValue: nat) returns (r: Result<seq<nat>>)
      requires Valid()
      modifies this
      ensures Valid() && Agrees(r, ParseNums(count, maxValue, old(Rest())), Rest())
    {
      var out: seq<nat> := [];
      ExtendEmpty(ParseNums(count, maxValue, Rest()));
      for i := 0 to count
        invariant Valid()
        invariant ParseNums(count, maxValue, old(Rest())) == Extend(out, ParseNums(count - i, maxValue, Rest()))
      {
        ghost var before := Rest();
        var n :- GetNum(8);
        if n > maxValue {
          return Err(Protocol);
        }
        ExtendStep(out, n, ParseNums(count - i - 1, maxValue, Rest()));
        out := out + [n];
      }
      assert out + [] == out;
      return Ok(out);
    }

    method GetRef() returns (r: Result<BlockRef>)
      requires Valid()
      modifies this
      ensures Valid() && Agrees(r, ParseRef(old(Rest())), Rest())
    {
      var h :- GetBlob();
      if |h| != 32 {
        return Err(Persistence);
      }
      var offset :- GetNum(8);
      var len :- GetNum(8);
      var crc :- GetNum(4);
      Powers();
      return Ok(BlockRef(h, offset, len, crc));
    }

    method GetRefs(count: nat) returns (r: Result<seq<BlockRef>>)
      requires Valid()
      modifies this
      ensures Valid() && Agrees(r, ParseRefs(count, old(Rest())), Rest())
    {
      var out: seq<BlockRef> := [];
      ExtendEmpty(ParseRefs(count, Rest()));
      for i := 0 to count
        invariant Valid()
        invariant ParseRefs(count, old(Rest())) == Extend(out, ParseRefs(count - i, Rest()))
      {
        var x :- GetRef();
        ExtendStep(out, x, ParseRefs(count - i - 1, Rest()));
        out := out + [x];
      }
      assert out + [] == out;
      return Ok(out);
    }

    method GetField(f: Field) returns (r: Result<Value>)
      requires Valid()
      modifies this
      ensures Valid() && Agrees(r, ParseField(f, old(Rest())), Rest())
    {
      match f
      case Num(w, lo, hi) =>
        var n :- GetNum(w);
        return if lo <= n <= hi then Ok(VNum(n)) else Err(Protocol);
      case Blob =>
        var b :- GetBlob();
        return Ok(VBlob(b));
      case Text =>
        var b :- GetText();
        return Ok(VBlob(b));
      case OptText =>
        var p :- GetNum(1);
        if p == 0 {
          return Ok(VOpt(None));
        }
        if p > 1 {
          return Err(Protocol);
        }
        var b :- GetText();
        return Ok(VOpt(Some(b)));
      case Nums(maxCount, maxValue) =>
        var n :- GetNum(8);
        if n > maxCount {
          return Err(Protocol);
        }
        var ns :- GetNums(n, maxValue);
        return Ok(VNums(ns));
      case Refs(maxCount) =>
        var n :- GetNum(8);
        if n > maxCount {
          return Err(Protocol);
        }
        var rs :- GetRefs(n);
        return Ok(VRefs(rs));
    }

    method GetAll(fs: seq<Field>) returns (r: Result<seq<Value>>)
      requires Valid()
      modifies this
      ensures Valid() && Agrees(r, ParseAll(fs, old(Rest())), Rest())
    {
      var out: seq<Value> := [];
      ExtendEmpty(ParseAll(fs, Rest()));
      assert fs[0..] == fs;
      for i := 0 to |fs|
        invariant Valid()
        invariant ParseAll(fs, old(Rest())) == Extend(out, ParseAll(fs[i..], Rest()))
      {
        assert fs[i..][1..] == fs[i + 1..];
        var v :- GetField(fs[i]);
        ExtendStep(out, v, ParseAll(fs[i + 1..], Rest()));
        out := out + [v];
      }
      assert out + [] == out;
      return Ok(out);
    }

    /** Read the last fields of a record: nothing may follow. */
    method GetLast(fs: seq<Field>) returns (r: Result<seq<Value>>)
      requires Valid()
      modifies this
      ensures r == DecodeRecord(fs, old(Rest()))
    {
      var vs :- GetAll(fs);
      if pos != |data| {
        assert Rest() != [];
        return Err(Protocol);
      }
      return Ok(vs);
    }
  }

  /** A read agrees with a parse: same error, or same value with the same bytes left. */
  ghost predicate Agrees<T>(r: Result<T>, p: Parse<T>, rest: Bytes) {
    if r.Err? then p == Err(r.error) else p == Ok((r.value, rest))
  }

  function Extend<T>(done: seq<T>, p: Parse<seq<T>>): Parse<seq<T>> {
    if p.Err? then p else Ok((done + p.value.0, p.value.1))
  }

  lemma ExtendEmpty<T>(p: Parse<seq<T>>)
    ensures Extend([], p) == p
  {
    if p.Ok? {
      assert [] + p.value.0 == p.value.0;
    }
  }

  lemma ExtendStep<T>(done: seq<T>, x: T, p: Parse<seq<T>>)
    ensures p.Ok? ==> Extend(done, Ok(([x] + p.value.0, p.value.1))) == Extend(done + [x], p)
  {
    if p.Ok? {
      assert done + ([x] + p.value.0) == (done + [x]) + p.value.0;
    }
  }
}

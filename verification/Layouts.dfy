/** The bytes of every record, written out position by position; the codecs produce exactly these. */
module Layouts {
  import opened Prelude
  import opened Storage
  import opened Shapes
  import opened Wire
  import opened Compat
  import opened Manifests
  import opened Messages
  import F = Frames
  import C = Coordination

  // ---- Parts -------------------------------------------------------------------------------

  /** A machine word, lowest byte first. */
  function Word(n: nat): Bytes {
    [n % 256, n / 0x100 % 256, n / 0x1_0000 % 256, n / 0x100_0000 % 256, n / 0x1_0000_0000 % 256,
     n / 0x100_0000_0000 % 256, n / 0x1_0000_0000_0000 % 256, n / 0x100_0000_0000_0000 % 256]
  }

  function Half(n: nat): Bytes {
    [n % 256, n / 0x100 % 256, n / 0x1_0000 % 256, n / 0x100_0000 % 256]
  }

  lemma Quotient(n: nat, d: nat, q: nat)
    requires d > 0 && q * d <= n < (q + 1) * d
    ensures n / d == q
  {
    QuotientAtLeast(n, d, n / d, q);
    QuotientAtLeast(n, d, n / d, q + 1);
  }

  lemma Regroup(x: int, a: int)
    ensures x * 256 * a == x * (a * 256)
  {
  }

  /** Dividing by `a` and then by 256 is dividing by 256 times `a`. */
  lemma DivDiv(n: nat, a: nat)
    requires a > 0
    ensures n / a / 256 == n / (a * 256)
  {
    var q := n / a;
    var t := q / 256;
    QuotientTakes(n, a, q);
    MulLeq(t * 256, q, a);
    MulLeq(q + 1, (t + 1) * 256, a);
    Regroup(t, a);
    Regroup(t + 1, a);
    Quotient(n, a * 256, t);
  }

  /** Little-endian printing gives these bytes. */
  lemma WordsArePrinted(n: nat)
    ensures ToLE(n, 1) == [n % 256] && ToLE(n, 4) == Half(n) && ToLE(n, 8) == Word(n)
  {
    DivDiv(n, 256);
    DivDiv(n, 0x1_0000);
    DivDiv(n, 0x100_0000);
    DivDiv(n, 0x1_0000_0000);
    DivDiv(n, 0x100_0000_0000);
    DivDiv(n, 0x1_0000_0000_0000);
    Digits(n);
  }

  lemma Digits(n: nat)
    ensures Digit(n, 0) == n % 256 && Digit(n, 1) == n / 256 % 256 && Digit(n, 2) == n / 256 / 256 % 256
    ensures Digit(n, 3) == n / 256 / 256 / 256 % 256 && Digit(n, 4) == n / 256 / 256 / 256 / 256 % 256
    ensures Digit(n, 5) == n / 256 / 256 / 256 / 256 / 256 % 256
    ensures Digit(n, 6) == n / 256 / 256 / 256 / 256 / 256 / 256 % 256
    ensures Digit(n, 7) == n / 256 / 256 / 256 / 256 / 256 / 256 / 256 % 256
  {
    assert forall m: nat, i: nat :: i > 0 ==> Digit(m, i) == Digit(m / 256, i - 1);
  }

  /** Bytes after their length. */
  function Sized(b: Bytes): Bytes {
    Word(|b|) + b
  }

  function Optional(o: Option<Bytes>): Bytes {
    if o.Some? then [1] + Sized(o.value) else [0]
  }

  function Words(ns: seq<nat>): Bytes {
    if ns == [] then [] else Word(ns[0]) + Words(ns[1..])
  }

  function BlockRefs(rs: seq<BlockRef>): Bytes {
    if rs == [] then []
    else Sized(rs[0].hash) + Word(rs[0].offset) + Word(rs[0].len) + Half(rs[0].crc) + BlockRefs(rs[1..])
  }

  lemma {:induction false} WordsPrinted(ns: seq<nat>)
    ensures PrintNums(ns) == Words(ns)
  {
    hide Word;
    if ns != [] {
      WordsArePrinted(ns[0]);
      WordsPrinted(ns[1..]);
    }
  }

  lemma {:induction false} RefsPrinted(rs: seq<BlockRef>)
    ensures PrintRefs(rs) == BlockRefs(rs)
  {
    hide Word, Half, ToLE;
    if rs != [] {
      WordsArePrinted(|rs[0].hash|);
      WordsArePrinted(rs[0].offset);
      WordsArePrinted(rs[0].len);
      WordsArePrinted(rs[0].crc);
      RefsPrinted(rs[1..]);
    }
  }

  /** The parts of a record, in order. */
  function Piece(f: Field, v: Value): Bytes {
    match v
    case VNum(n) => if f.Num? && f.width == 1 then [n % 256] else if f.Num? && f.width == 4 then Half(n) else Word(n)
    case VBlob(b) => Sized(b)
    case VOpt(o) => Optional(o)
    case VNums(ns) => Word(|ns|) + Words(ns)
    case VRefs(rs) => Word(|rs|) + BlockRefs(rs)
  }

  lemma PieceIsPrinted(f: Field, v: Value)
    requires SameKind(f, v) && (f.Num? ==> f.width in {1, 4, 8})
    ensures Print(f, v) == Piece(f, v)
  {
    hide Word, Half, ToLE, PrintNums, PrintRefs, Words, BlockRefs;
    WordsArePrinted(1);
    WordsArePrinted(0);
    match v
    case VNum(n) => WordsArePrinted(n);
    case VBlob(b) => WordsArePrinted(|b|);
    case VOpt(o) =>
      if o.Some? {
        WordsArePrinted(|o.value|);
      }
    case VNums(ns) => WordsArePrinted(|ns|); WordsPrinted(ns);
    case VRefs(rs) => WordsArePrinted(|rs|); RefsPrinted(rs);
  }

  /** Parts one after the other. */
  function Concat(parts: seq<Bytes>): Bytes {
    if parts == [] then [] else parts[0] + Concat(parts[1..])
  }

  function Pieces(fs: seq<Field>, vs: seq<Value>): (ps: seq<Bytes>)
    requires |fs| == |vs|
  {
    seq(|vs|, i requires 0 <= i < |vs| => Piece(fs[i], vs[i]))
  }

  lemma {:induction false} RecordIsPieces(fs: seq<Field>, vs: seq<Value>)
    requires Shaped(fs, vs) && forall i :: 0 <= i < |fs| && fs[i].Num? ==> fs[i].width in {1, 4, 8}
    ensures PrintAll(fs, vs) == Concat(Pieces(fs, vs))
    decreases |fs|
  {
    hide Print, Piece;
    if fs != [] {
      PieceIsPrinted(fs[0], vs[0]);
      RecordIsPieces(fs[1..], vs[1..]);
      assert Pieces(fs, vs)[1..] == Pieces(fs[1..], vs[1..]);
    }
  }

  lemma {:induction false} ConcatBoth(x: seq<Bytes>, y: seq<Bytes>)
    ensures Concat(x + y) == Concat(x) + Concat(y)
  {
    if x == [] {
      assert x + y == y;
    } else {
      assert (x + y)[1..] == x[1..] + y;
      ConcatBoth(x[1..], y);
    }
  }

  lemma Magics()
    ensures Half(MAGIC) == [0x31, 0x4D, 0x43, 0x54] && Half(C.SNAPSHOT_MAGIC) == [0x4F, 0x43, 0x43, 0x54]
    ensures Half(F.MAGIC) == [0x46, 0x42, 0x43, 0x54]
  {
  }

  // ---- Identities --------------------------------------------------------------------------

  /** An address: version, namespace, key, generation. */
  lemma AddressLayout(a: Address)
    ensures EncodeAddress(a) == Concat([[1], Sized(a.namespace), Sized(a.key), Word(a.generation)])
  {
    hide Concat, PrintAll, Word, Half, Sized, Words, BlockRefs, Optional;
    var vs := [VNum(1), VBlob(a.namespace), VBlob(a.key), VNum(a.generation)];
    RecordIsPieces(ADDRESS, vs);
    assert Pieces(ADDRESS, vs) == [[1], Sized(a.namespace), Sized(a.key), Word(a.generation)];
  }

  /** How an element layout is written: a code, and the strides of an explicit layout. */
  function LayoutParts(l: Layout): seq<Bytes> {
    match l
    case RowMajor => [[0]]
    case ColMajor => [[1]]
    case Strided(strides) => [[2], Word(|strides|) + Words(strides)]
  }

  function HeadParts(k: CompatKey): seq<Bytes> {
    [[1], Optional(k.model), Optional(k.modelRevision), Optional(k.runtimeVersion), Optional(k.operation), [k.dtype],
     Word(|k.dims|) + Words(k.dims)]
  }

  function RestParts(k: CompatKey): seq<Bytes> {
    [[k.endianness], Optional(k.device), Optional(k.precision), [k.quant], [k.mutability]]
  }

  lemma HeadPieces(k: CompatKey)
    ensures PrintAll(HEAD, HeadValues(k)) == Concat(HeadParts(k) + [[LayoutCode(k.layout)]])
  {
    hide Concat, PrintAll, Words, Word, Half, Sized, BlockRefs, Optional;
    RecordIsPieces(HEAD, HeadValues(k));
    assert Pieces(HEAD, HeadValues(k)) == HeadParts(k) + [[LayoutCode(k.layout)]];
  }

  lemma TailPieces(k: CompatKey)
    ensures PrintAll(Tail(LayoutCode(k.layout), U64_MAX), TailValues(k)) ==
      Concat(LayoutParts(k.layout)[1..] + RestParts(k))
  {
    hide Concat, PrintAll, Words, Word, Half, Sized, BlockRefs, Optional;
    var fs, vs := Tail(LayoutCode(k.layout), U64_MAX), TailValues(k);
    RecordIsPieces(fs, vs);
    assert Pieces(fs, vs) == LayoutParts(k.layout)[1..] + RestParts(k);
  }

  /** A compatibility key: version, then its fields in the order of declaration. */
  lemma KeyLayout(k: CompatKey)
    ensures Encode(k) == Concat(HeadParts(k) + LayoutParts(k.layout) + RestParts(k))
  {
    hide Concat, PrintAll, Tail, HeadValues, TailValues, HeadParts, RestParts, Words, Word;
    HeadPieces(k);
    TailPieces(k);
    var l := LayoutParts(k.layout);
    ConcatBoth(HeadParts(k) + [[LayoutCode(k.layout)]], l[1..] + RestParts(k));
    assert l == [[LayoutCode(k.layout)]] + l[1..];
    assert (HeadParts(k) + [[LayoutCode(k.layout)]]) + (l[1..] + RestParts(k)) == HeadParts(k) + l + RestParts(k);
  }

  /** The bytes of one element, by the code of its type: the floats, the signed, the unsigned integers, booleans. */
  const ELEMENT_BYTES: seq<nat> := [8, 4, 2, 2, 1, 8, 4, 2, 1, 8, 4, 2, 1, 1]

  lemma ElementSizes(d: Dtype)
    ensures 1 <= d <= |ELEMENT_BYTES| && ElementSize(d) == ELEMENT_BYTES[d - 1]
  {
  }

  const LETTERS: string := "0123456789abcdef"

  /** A name spells each byte with two letters, the high half first. */
  lemma {:induction false} HexLetters(b: Bytes, i: nat)
    requires i < |b|
    ensures ToHex(b)[2 * i] == LETTERS[b[i] / 16] as int && ToHex(b)[2 * i + 1] == LETTERS[b[i] % 16] as int
    decreases i
  {
    if i > 0 {
      HexLetters(b[1..], i - 1);
    }
  }

  // ---- Manifests and snapshots -------------------------------------------------------------

  /** A manifest: "1MCT", version, identity, address, key, sizes, creation time, blocks; then the digest of all that. */
  lemma ManifestLayout(c: Content, m: Meta)
    ensures var body := Concat(
        [[0x31, 0x4D, 0x43, 0x54], [1], Sized(m.objectId), Sized(m.namespace), Sized(m.key), Word(m.generation),
         Sized(Encode(m.compat)), Word(m.byteLen), Word(m.numel), Word(m.createdNs),
         Word(|m.blocks|) + BlockRefs(m.blocks)]);
      EncodeManifest(c, m) == body + c.hash(body)
  {
    hide Concat, PrintAll, Word, Half, Words, Sized, Encode, BlockRefs, Optional;
    Magics();
    RecordIsPieces(MANIFEST, MetaValues(m));
    assert Pieces(MANIFEST, MetaValues(m)) ==
      [[0x31, 0x4D, 0x43, 0x54], [1], Sized(m.objectId), Sized(m.namespace), Sized(m.key), Word(m.generation),
       Sized(Encode(m.compat)), Word(m.byteLen), Word(m.numel), Word(m.createdNs),
       Word(|m.blocks|) + BlockRefs(m.blocks)];
  }

  /** The coordinator's snapshot: "OCCT", version, epoch, how many objects; then each with its owner and fence. */
  lemma SnapshotLayout(s: C.State, order: seq<Bytes>)
    requires |s.objects| < TWO_64 && forall i :: 0 <= i < |order| ==> order[i] in s.objects
    ensures C.Snapshot(s, order) ==
      Concat([[0x4F, 0x43, 0x43, 0x54], [1], Word(s.epoch), Word(|s.objects|)]) + SavedParts(s.objects, order)
  {
    hide PrintAll, Word, Concat, C.PrintSaved, SavedParts, C.SnapshotHead;
    HeadLayout(s.epoch, |s.objects|);
    SavedLayout(s.objects, order);
  }

  lemma HeadLayout(epoch: u64, count: u64)
    ensures PrintAll(C.SNAPSHOT, C.SnapshotHead(epoch, count)) ==
      Concat([[0x4F, 0x43, 0x43, 0x54], [1], Word(epoch), Word(count)])
  {
    hide PrintAll, Word, Half, Words, Sized, BlockRefs, Optional, Concat;
    Magics();
    var head := C.SnapshotHead(epoch, count);
    RecordIsPieces(C.SNAPSHOT, head);
    assert Pieces(C.SNAPSHOT, head) == [[0x4F, 0x43, 0x43, 0x54], [1], Word(epoch), Word(count)];
  }

  function SavedParts(objects: map<Bytes, C.Owned>, order: seq<Bytes>): Bytes
    requires forall i :: 0 <= i < |order| ==> order[i] in objects
  {
    if order == [] then []
    else
      var o := objects[order[0]];
      Concat([Sized(order[0]), Sized(o.owner), Word(o.fence)]) + SavedParts(objects, order[1..])
  }

  lemma {:induction false} SavedLayout(objects: map<Bytes, C.Owned>, order: seq<Bytes>)
    requires forall i :: 0 <= i < |order| ==> order[i] in objects
    ensures C.PrintSaved(C.SavedAt(objects, order)) == SavedParts(objects, order)
    decreases |order|
  {
    hide PrintAll, Word, Half, Words, Sized, BlockRefs, Optional, Concat;
    if order != [] {
      var es := C.SavedAt(objects, order);
      assert es[1..] == C.SavedAt(objects, order[1..]);
      SavedLayout(objects, order[1..]);
      var vs := C.SavedValues(es[0]);
      RecordIsPieces(C.ENTRY, vs);
      assert Pieces(C.ENTRY, vs) == [Sized(es[0].id), Sized(es[0].owner), Word(es[0].fence)];
    }
  }

  // ---- Messages and frames -----------------------------------------------------------------

  /** The kind and the body of each message. */
  function Body(m: Message): (byte, seq<Bytes>) {
    match m
    case Register(node, addr) => (1, [Sized(node), Sized(addr)])
    case Hello(epoch, boot, node, addr, lease) => (2, [Word(epoch), Sized(boot), Sized(node), Sized(addr), Word(lease)])
    case Lookup(namespace, key, gen, compat) => (3, [Sized(namespace), Sized(key), Word(gen), Sized(compat)])
    case LookupResult(found, owner, addr, gen) =>
      (4, [[if found then 1 else 0], Word(gen), Optional(owner), Optional(addr)])
    case Create(namespace, key, gen, len, compat, node) =>
      (5, [Sized(namespace), Sized(key), Word(gen), Word(len), Sized(compat), Sized(node)])
    case CreateAck(id, epoch, fence, holder) => (6, [Sized(id), Word(epoch), Word(fence), Sized(holder)])
    case LeaseRenew(id, fence) => (7, [Sized(id), Word(fence)])
    case LeaseGrant(id, epoch, fence, expires) => (8, [Sized(id), Word(epoch), Word(fence), Word(expires)])
    case Fetch(id, compat) => (9, [Sized(id), Sized(compat)])
    case FetchReply(id, data, crc) => (10, [Sized(id), Sized(data), Half(crc)])
    case Store(namespace, key, gen, data, crc, compat, source) =>
      (11, [Sized(namespace), Sized(key), Word(gen), Sized(data), Half(crc), Sized(compat), Sized(source)])
    case StoreAck(id) => (12, [Sized(id)])
    case Migrate(id, newOwner, addr, fence) => (13, [Sized(id), Sized(newOwner), Sized(addr), Word(fence)])
    case MigrateAck(id, newOwner, fence) => (14, [Sized(id), Sized(newOwner), Word(fence)])
    case Heartbeat(node, epoch) => (15, [Sized(node), Word(epoch)])
    case Failure(code, text) => (16, [Sized(code), Sized(text)])
  }

  lemma MessagePieces(m: Message)
    ensures Tag(m) == Body(m).0 && Pieces(Schema(Tag(m)), Values(m)) == Body(m).1
  {
    hide Word, Half, Words, Sized, BlockRefs, Optional;
  }

  /** The codec of messages writes them so. */
  lemma MessageLayout(m: Message)
    ensures Tag(m) == Body(m).0 && EncodeBody(m) == Concat(Body(m).1)
  {
    hide Concat, PrintAll, Pieces, Body, Build, Values;
    BuildValues(m);
    MessagePieces(m);
    RecordIsPieces(Schema(Tag(m)), Values(m));
  }

  /** A frame: "FBCT", version, kind, length, checksum of these and the body, two zero bytes, the body. */
  lemma FrameLayout(c: Content, m: Message)
    requires |EncodeBody(m)| < TWO_32
    ensures var body := Concat(Body(m).1);
      var head := [0x46, 0x42, 0x43, 0x54, 1, Body(m).0] + Half(|body|);
      F.Frame(c, m) == head + Half(c.crc(head + body)) + [0, 0] + body
  {
    hide Concat, Body, EncodeBody, Half, ToLE;
    Magics();
    MessageLayout(m);
    var body := EncodeBody(m);
    WordsArePrinted(F.MAGIC);
    WordsArePrinted(|body|);
    assert F.Prefix(Tag(m), body) == [0x46, 0x42, 0x43, 0x54, 1, Tag(m)] + Half(|body|);
    WordsArePrinted(c.crc(F.Prefix(Tag(m), body) + body));
  }
}

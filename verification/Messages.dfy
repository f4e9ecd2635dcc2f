/** The network messages and their bodies on the wire. */
module Messages {
  import opened Prelude
  import opened Wire

  datatype Message =
    | Register(nodeId: Bytes, addr: Bytes)
    | Hello(epoch: u64, bootId: Bytes, nodeId: Bytes, addr: Bytes, leaseNs: u64)
    | Lookup(namespace: Bytes, key: Bytes, generation: u64, compat: Bytes)
    | LookupResult(found: bool, owner: Option<Bytes>, ownerAddr: Option<Bytes>, generation: u64)
    | Create(namespace: Bytes, key: Bytes, generation: u64, byteLen: u64, compat: Bytes, nodeId: Bytes)
    | CreateAck(objectId: Bytes, epoch: u64, fence: u64, holder: Bytes)
    | LeaseRenew(objectId: Bytes, fence: u64)
    | LeaseGrant(objectId: Bytes, epoch: u64, fence: u64, expiresNs: u64)
    | Fetch(objectId: Bytes, compat: Bytes)
    | FetchReply(objectId: Bytes, data: Bytes, crc: u32)
    | Store(namespace: Bytes, key: Bytes, generation: u64, data: Bytes, crc: u32, compat: Bytes, source: Bytes)
    | StoreAck(objectId: Bytes)
    | Migrate(objectId: Bytes, newOwner: Bytes, newOwnerAddr: Bytes, fence: u64)
    | MigrateAck(objectId: Bytes, newOwner: Bytes, fence: u64)
    | Heartbeat(nodeId: Bytes, epoch: u64)
    | Failure(code: Bytes, text: Bytes)

  function Tag(m: Message): (t: byte)
    ensures 1 <= t <= 16
  {
    match m
    case Register(_, _) => 1
    case Hello(_, _, _, _, _) => 2
    case Lookup(_, _, _, _) => 3
    case LookupResult(_, _, _, _) => 4
    case Create(_, _, _, _, _, _) => 5
    case CreateAck(_, _, _, _) => 6
    case LeaseRenew(_, _) => 7
    case LeaseGrant(_, _, _, _) => 8
    case Fetch(_, _) => 9
    case FetchReply(_, _, _) => 10
    case Store(_, _, _, _, _, _, _) => 11
    case StoreAck(_) => 12
    case Migrate(_, _, _, _) => 13
    case MigrateAck(_, _, _) => 14
    case Heartbeat(_, _) => 15
    case Failure(_, _) => 16
  }

  /** The fields of each kind of body, in wire order. */
  function Schema(t: nat): seq<Field> {
    match t
    case 1 => [Text, Text]
    case 2 => [U64, Text, Text, Text, U64]
    case 3 => [Text, Text, U64, Blob]
    case 4 => [BOOL, U64, OptText, OptText]
    case 5 => [Text, Text, U64, U64, Blob, Text]
    case 6 => [Text, U64, U64, Text]
    case 7 => [Text, U64]
    case 8 => [Text, U64, U64, U64]
    case 9 => [Text, Blob]
    case 10 => [Text, Blob, U32]
    case 11 => [Text, Text, U64, Blob, U32, Blob, Text]
    case 12 => [Text]
    case 13 => [Text, Text, Text, U64]
    case 14 => [Text, Text, U64]
    case 15 => [Text, U64]
    case _ => [Text, Text]
  }

  function Values(m: Message): (vs: seq<Value>)
    ensures |vs| == |Schema(Tag(m))|
  {
    match m
    case Register(n, a) => [VBlob(n), VBlob(a)]
    case Hello(e, b, n, a, l) => [VNum(e), VBlob(b), VBlob(n), VBlob(a), VNum(l)]
    case Lookup(s, k, g, c) => [VBlob(s), VBlob(k), VNum(g), VBlob(c)]
    case LookupResult(f, o, a, g) => [VNum(if f then 1 else 0), VNum(g), VOpt(o), VOpt(a)]
    case Create(s, k, g, l, c, n) => [VBlob(s), VBlob(k), VNum(g), VNum(l), VBlob(c), VBlob(n)]
    case CreateAck(o, e, f, h) => [VBlob(o), VNum(e), VNum(f), VBlob(h)]
    case LeaseRenew(o, f) => [VBlob(o), VNum(f)]
    case LeaseGrant(o, e, f, x) => [VBlob(o), VNum(e), VNum(f), VNum(x)]
    case Fetch(o, c) => [VBlob(o), VBlob(c)]
    case FetchReply(o, d, c) => [VBlob(o), VBlob(d), VNum(c)]
    case Store(s, k, g, d, crc, c, src) => [VBlob(s), VBlob(k), VNum(g), VBlob(d), VNum(crc), VBlob(c), VBlob(src)]
    case StoreAck(o) => [VBlob(o)]
    case Migrate(o, n, a, f) => [VBlob(o), VBlob(n), VBlob(a), VNum(f)]
    case MigrateAck(o, n, f) => [VBlob(o), VBlob(n), VNum(f)]
    case Heartbeat(n, e) => [VBlob(n), VNum(e)]
    case Failure(c, t) => [VBlob(c), VBlob(t)]
  }

  /** What the field types guarantee: texts are UTF-8, and lengths are machine words. */
  ghost predicate Typed(m: Message) {
    match m
    case Register(n, a) => ShortText(n) && ShortText(a)
    case Hello(_, b, n, a, _) => ShortText(b) && ShortText(n) && ShortText(a)
    case Lookup(s, k, _, c) => ShortText(s) && ShortText(k) && |c| < TWO_64
    case LookupResult(_, o, a, _) => (o.Some? ==> ShortText(o.value)) && (a.Some? ==> ShortText(a.value))
    case Create(s, k, _, _, c, n) => ShortText(s) && ShortText(k) && |c| < TWO_64 && ShortText(n)
    case CreateAck(o, _, _, h) => ShortText(o) && ShortText(h)
    case LeaseRenew(o, _) => ShortText(o)
    case LeaseGrant(o, _, _, _) => ShortText(o)
    case Fetch(o, c) => ShortText(o) && |c| < TWO_64
    case FetchReply(o, d, _) => ShortText(o) && |d| < TWO_64
    case Store(s, k, _, d, _, c, src) => ShortText(s) && ShortText(k) && |d| < TWO_64 && |c| < TWO_64 && ShortText(src)
    case StoreAck(o) => ShortText(o)
    case Migrate(o, n, a, _) => ShortText(o) && ShortText(n) && ShortText(a)
    case MigrateAck(o, n, _) => ShortText(o) && ShortText(n)
    case Heartbeat(n, _) => ShortText(n)
    case Failure(c, t) => ShortText(c) && ShortText(t)
  }

  predicate SameKind(f: Field, v: Value) {
    match f
    case Num(_, _, hi) => v.VNum? && v.n <= hi
    case Blob => v.VBlob?
    case Text => v.VBlob?
    case OptText => v.VOpt?
    case Nums(_, _) => v.VNums?
    case Refs(_) => v.VRefs?
  }

  predicate Shaped(fs: seq<Field>, vs: seq<Value>) {
    |fs| == |vs| && forall i :: 0 <= i < |fs| ==> SameKind(fs[i], vs[i])
  }

  /** The message that a kind and parsed values describe. */
  function Build(t: nat, vs: seq<Value>): Message
    requires 1 <= t <= 16 && Shaped(Schema(t), vs)
  {
    assert forall i :: 0 <= i < |vs| ==> SameKind(Schema(t)[i], vs[i]);
    match t
    case 1 => Register(vs[0].b, vs[1].b)
    case 2 => Hello(vs[0].n, vs[1].b, vs[2].b, vs[3].b, vs[4].n)
    case 3 => Lookup(vs[0].b, vs[1].b, vs[2].n, vs[3].b)
    case 4 => LookupResult(vs[0].n == 1, vs[2].o, vs[3].o, vs[1].n)
    case 5 => Create(vs[0].b, vs[1].b, vs[2].n, vs[3].n, vs[4].b, vs[5].b)
    case 6 => CreateAck(vs[0].b, vs[1].n, vs[2].n, vs[3].b)
    case 7 => LeaseRenew(vs[0].b, vs[1].n)
    case 8 => LeaseGrant(vs[0].b, vs[1].n, vs[2].n, vs[3].n)
    case 9 => Fetch(vs[0].b, vs[1].b)
    case 10 => FetchReply(vs[0].b, vs[1].b, vs[2].n)
    case 11 => Store(vs[0].b, vs[1].b, vs[2].n, vs[3].b, vs[4].n, vs[5].b, vs[6].b)
    case 12 => StoreAck(vs[0].b)
    case 13 => Migrate(vs[0].b, vs[1].b, vs[2].b, vs[3].n)
    case 14 => MigrateAck(vs[0].b, vs[1].b, vs[2].n)
    case 15 => Heartbeat(vs[0].b, vs[1].n)
    case _ => Failure(vs[0].b, vs[1].b)
  }

  function EncodeBody(m: Message): Bytes {
    PrintAll(Schema(Tag(m)), Values(m))
  }

  function DecodeBody(t: nat, b: Bytes): Result<Message> {
    if !(1 <= t <= 16) then Err(Protocol)
    else
      var vs :- DecodeRecord(Schema(t), b);
      if Shaped(Schema(t), vs) then Ok(Build(t, vs)) else Err(Protocol)
  }

  // ---- Exact inverses ----------------------------------------------------------------------

  lemma TypedFits(m: Message)
    requires Typed(m)
    ensures FitsAll(Schema(Tag(m)), Values(m))
  {
    hide ShortText, Power;
    Powers();
  }

  lemma FitsTyped(m: Message)
    requires FitsAll(Schema(Tag(m)), Values(m))
    ensures Typed(m)
  {
    hide ShortText, Power, FitsAll;
    FitsEach(Schema(Tag(m)), Values(m));
  }

  lemma ValuesFit(m: Message)
    ensures Typed(m) <==> FitsAll(Schema(Tag(m)), Values(m))
  {
    hide Typed, FitsAll, Schema, Values;
    if Typed(m) {
      TypedFits(m);
    }
    if FitsAll(Schema(Tag(m)), Values(m)) {
      FitsTyped(m);
    }
  }

  lemma FitsEach(fs: seq<Field>, vs: seq<Value>)
    requires FitsAll(fs, vs)
    ensures (|fs| > 0 ==> Fits(fs[0], vs[0])) && (|fs| > 1 ==> Fits(fs[1], vs[1])) && (|fs| > 2 ==> Fits(fs[2], vs[2]))
    ensures (|fs| > 3 ==> Fits(fs[3], vs[3])) && (|fs| > 4 ==> Fits(fs[4], vs[4])) && (|fs| > 5 ==> Fits(fs[5], vs[5]))
    ensures |fs| > 6 ==> Fits(fs[6], vs[6])
  {
  }

  lemma BuildValues(m: Message)
    ensures Shaped(Schema(Tag(m)), Values(m)) && Build(Tag(m), Values(m)) == m
  {
  }

  lemma ValuesBuild(t: nat, vs: seq<Value>)
    requires 1 <= t <= 16 && Shaped(Schema(t), vs)
    ensures Tag(Build(t, vs)) == t && Values(Build(t, vs)) == vs
  {
    assert forall i :: 0 <= i < |vs| ==> SameKind(Schema(t)[i], vs[i]);
  }

  /** Bodies and messages correspond one to one: whatever decodes is the encoding of what it decodes to. */
  lemma BodyBijection(t: nat, b: Bytes, m: Message)
    ensures DecodeBody(t, b) == Ok(m) <==> Tag(m) == t && Typed(m) && b == EncodeBody(m)
  {
    hide Typed, PrintAll, FitsAll, ParseAll, DecodeRecord, Build, Values, Shaped, Schema;
    if DecodeBody(t, b) == Ok(m) {
      var vs := DecodeRecord(Schema(t), b).value;
      ValuesBuild(t, vs);
      ValuesFit(m);
      RecordBijection(Schema(t), b, vs);
    }
    if Tag(m) == t && Typed(m) && b == EncodeBody(m) {
      ValuesFit(m);
      BuildValues(m);
      RecordBijection(Schema(t), b, Values(m));
    }
  }

  method EncodeMessage(m: Message) returns (b: Bytes)
    requires Typed(m)
    ensures b == EncodeBody(m)
  {
    hide PrintAll, Schema, Values, Typed;
    ValuesFit(m);
    var w := new Writer();
    w.PutAll(Schema(Tag(m)), Values(m));
    assert [] + EncodeBody(m) == EncodeBody(m);
    return w.buf;
  }

  method DecodeMessage(t: nat, b: Bytes) returns (r: Result<Message>)
    ensures r == DecodeBody(t, b)
  {
    hide DecodeRecord, Schema, Shaped;
    if !(1 <= t <= 16) {
      return Err(Protocol);
    }
    var reader := new Reader(b);
    var vs :- reader.GetLast(Schema(t));
    if Shaped(Schema(t), vs) {
      return Ok(Build(t, vs));
    }
    return Err(Protocol);
  }
}

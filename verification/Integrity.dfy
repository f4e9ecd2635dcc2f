/** What the checksum protects: damage within four consecutive bytes of a stored block or of a frame is refused. */
module Integrity {
  import opened Prelude
  import opened Storage
  import opened Wire
  import opened Frames
  import C = Crc32c

  /** Octets as the byte values they stand for. */
  function ToBytes(o: C.Octets): (b: Bytes)
    ensures |b| == |o|
  {
    seq(|o|, i requires 0 <= i < |o| => o[i] as int)
  }

  /** The checksum in use is CRC-32C. */
  ghost predicate UsesCrc32c(c: Content) {
    forall o :: c.crc(ToBytes(o)) == C.Crc(o) as int
  }

  lemma BurstChangesCrc(c: Content, x: C.Octets, a: C.Octets, b: C.Octets, y: C.Octets)
    requires UsesCrc32c(c) && |a| == |b| <= 4 && a != b
    ensures c.crc(ToBytes(x + a + y)) != c.crc(ToBytes(x + b + y))
  {
    hide ToBytes, C.Crc;
    C.BurstIsDetected(x, a, b, y);
    WordsDiffer(C.Crc(x + a + y), C.Crc(x + b + y));
  }

  lemma WordsDiffer(v: bv32, w: bv32)
    requires v != w
    ensures v as int != w as int
  {
    assert (v as int) as bv32 == v && (w as int) as bv32 == w;
  }

  /** An object with a damaged block is not reassembled into anything. */
  lemma DamagedBlockIsRefused(c: Content, blocks: seq<BlockRef>, byteLen: u64, get: Digest -> Result<Bytes>,
                              i: nat, x: C.Octets, a: C.Octets, b: C.Octets, y: C.Octets)
    requires UsesCrc32c(c) && i < |blocks| && |a| == |b| <= 4 && a != b
    requires blocks[i].crc == c.crc(ToBytes(x + a + y)) && get(blocks[i].hash) == Ok(ToBytes(x + b + y))
    ensures Reassemble(c, blocks, byteLen, get).Err?
  {
    hide UsesCrc32c, ToBytes;
    BurstChangesCrc(c, x, a, b, y);
    GatherFails(c, blocks, get, i);
  }

  lemma {:induction false} GatherFails(c: Content, blocks: seq<BlockRef>, get: Digest -> Result<Bytes>, i: nat)
    requires i < |blocks| && get(blocks[i].hash).Ok? && c.crc(get(blocks[i].hash).value) != blocks[i].crc
    ensures Gather(c, blocks, get).Err?
  {
    if i > 0 {
      assert blocks[1..][i - 1] == blocks[i];
      GatherFails(c, blocks[1..], get, i - 1);
    }
  }

  /** A frame on the wire: its checksum and two reserved bytes stand between the header and the payload they cover. */
  function OnWire(covered: Bytes, sum: u32, r0: byte, r1: byte): Bytes
    requires |covered| >= 10
  {
    covered[..10] + ToLE(sum, 4) + [r0, r1] + covered[10..]
  }

  lemma OnWireParts(covered: Bytes, sum: u32, r0: byte, r1: byte, rest: Bytes)
    requires |covered| >= 10
    ensures var s := OnWire(covered, sum, r0, r1) + rest; var n := |covered| - 10;
      && |s| >= HEADER_LEN + n && s[0..10] == covered[..10] && s[6..10] == covered[6..10]
      && FromLE(s[10..14]) == sum && s[HEADER_LEN..HEADER_LEN + n] == covered[10..]
  {
    hide ToLE, FromLE;
    var s := OnWire(covered, sum, r0, r1) + rest;
    assert s[10..14] == ToLE(sum, 4);
    Powers();
    FromToLE(sum, 4);
  }

  /** A whole frame is its checksummed part on the wire. */
  lemma FrameOnWire(c: Content, tag: byte, payload: Bytes, r0: byte, r1: byte)
    ensures var covered := Prefix(tag, payload) + payload;
      FrameWith(c, tag, payload, r0, r1) == OnWire(covered, c.crc(covered), r0, r1)
  {
    hide ToLE, Prefix;
    var p := Prefix(tag, payload);
    assert (p + payload)[..10] == p && (p + payload)[10..] == payload;
  }

  /**
   * A frame damaged on the way within four consecutive bytes of what the checksum covers -- header, payload, or across
   * the border between them -- is refused, as long as the length field arrived as it was sent.
   */
  lemma DamagedFrameIsRefused(c: Content, tag: byte, payload: Bytes, x: C.Octets, a: C.Octets, b: C.Octets, y: C.Octets,
                              r0: byte, r1: byte, rest: Bytes)
    requires UsesCrc32c(c) && |a| == |b| <= 4 && a != b && |payload| < TWO_32
    requires ToBytes(x + a + y) == Prefix(tag, payload) + payload
    requires ToBytes(x + b + y)[6..10] == ToLE(|payload|, 4)
    ensures ReadOne(c, OnWire(ToBytes(x + b + y), c.crc(Prefix(tag, payload) + payload), r0, r1) + rest).Broken?
  {
    hide UsesCrc32c, ToLE, FromLE, ToBytes, OnWire;
    var bad, sum := ToBytes(x + b + y), c.crc(Prefix(tag, payload) + payload);
    BurstChangesCrc(c, x, a, b, y);
    OnWireParts(bad, sum, r0, r1, rest);
    Powers();
    FromToLE(|payload|, 4);
    assert bad[..10] + bad[10..] == bad;
  }
}

/**
 * Streaming SHA-256. The compression function is a parameter; what is proved is that buffering and padding present
 * it with exactly the blocks of the padded message (sections 5.1.1 and 6.2 of FIPS 180-4), however the message is
 * cut into updates.
 */
module Sha256 {
  import opened Prelude
  import opened Storage
  import opened Wire

  type Words = seq<u32>
  type Compression = (Words, Bytes) -> Words

  const INITIAL: Words :=
    [0x6a09e667, 0xbb67ae85, 0x3c6ef372, 0xa54ff53a, 0x510e527f, 0x9b05688c, 0x1f83d9ab, 0x5be0cd19]

  const PRIMES: seq<nat> := [2, 3, 5, 7, 11, 13, 17, 19]
  const ROOTS: seq<nat> := [1, 1, 2, 2, 3, 3, 4, 4]

  /** The initial words are the first 32 bits of the fractional parts of the square roots of the first eight primes. */
  lemma InitialWordsAreRoots(i: nat)
    requires i < 8
    ensures |INITIAL| == 8 && var x := ROOTS[i] * TWO_32 + INITIAL[i]; x * x <= PRIMES[i] * TWO_64 < (x + 1) * (x + 1)
  {
    match i
    case 0 => case 1 => case 2 => case 3 => case 4 => case 5 => case 6 => case _ =>
  }

  // ---- The standard ------------------------------------------------------------------------

  /** A word's bytes, highest first. */
  function BigEndian(n: nat, width: nat): (b: Bytes)
    ensures |b| == width
  {
    seq(width, i requires 0 <= i < width => Digit(n, width - 1 - i))
  }

  function Zeros(n: nat): (z: Bytes)
    ensures |z| == n
  {
    seq(n, i => 0)
  }

  /** The number of zero bytes between the marker and the length. */
  function Fill(n: nat): nat {
    (119 - n % 64) % 64
  }

  /** The message, a one bit, zeros, and the message's length in bits as 64 bits. */
  function Pad(m: Bytes): Bytes {
    m + [0x80] + Zeros(Fill(|m|)) + BigEndian(8 * |m| % TWO_64, 8)
  }

  /** Digest whole blocks in order. */
  function Fold(f: Compression, h: Words, data: Bytes): Words
    requires |data| % 64 == 0
    decreases |data|
  {
    if data == [] then h else Fold(f, f(h, data[..64]), data[64..])
  }

  function Spell(h: Words): Bytes {
    if h == [] then [] else BigEndian(h[0], 4) + Spell(h[1..])
  }

  function Hash(f: Compression, m: Bytes): Bytes {
    PadIsStandard(m);
    Spell(Fold(f, INITIAL, Pad(m)))
  }

  function FromBigEndian(b: Bytes): nat {
    FromLE(seq(|b|, i requires 0 <= i < |b| => b[|b| - 1 - i]))
  }

  lemma BigEndianBack(n: nat, width: nat)
    requires n < Power(width)
    ensures FromBigEndian(BigEndian(n, width)) == n
  {
    hide Digit;
    var b := BigEndian(n, width);
    assert seq(|b|, i requires 0 <= i < |b| => b[|b| - 1 - i]) == ToLE(n, width);
    FromToLE(n, width);
  }

  /** A marker, `k` zeros and a length field complete the last block. */
  predicate Completes(n: nat, k: nat) {
    (n + 1 + k + 8) % 64 == 0
  }

  lemma FillIsLeast(n: nat)
    ensures Completes(n, Fill(n)) && forall k :: 0 <= k < Fill(n) ==> !Completes(n, k)
  {
    var q, d := n / 64, n % 64;
    assert n == 64 * q + d;
    if d <= 55 {
      assert Fill(n) == 55 - d;
      assert n + 1 + Fill(n) + 8 == 64 * (q + 1);
    } else {
      assert Fill(n) == 119 - d;
      assert n + 1 + Fill(n) + 8 == 64 * (q + 2);
    }
  }

  /**
   * The padded message is a whole number of blocks with the fewest possible zeros; and for every message under 2^61
   * bytes its last eight bytes spell the exact length in bits.
   */
  lemma PadIsStandard(m: Bytes)
    ensures |Pad(m)| % 64 == 0
    ensures forall k :: 0 <= k < Fill(|m|) ==> !Completes(|m|, k)
    ensures |m| < 0x2000_0000_0000_0000 ==> FromBigEndian(Pad(m)[|Pad(m)| - 8..]) == 8 * |m|
  {
    hide BigEndian, FromBigEndian, Fill;
    FillIsLeast(|m|);
    if |m| < 0x2000_0000_0000_0000 {
      var length := BigEndian(8 * |m|, 8);
      assert Pad(m)[|Pad(m)| - 8..] == length;
      Powers();
      BigEndianBack(8 * |m|, 8);
    }
  }

  lemma {:induction false} FoldConcat(f: Compression, h: Words, x: Bytes, y: Bytes)
    requires |x| % 64 == 0 && |y| % 64 == 0
    ensures Fold(f, h, x + y) == Fold(f, Fold(f, h, x), y)
    decreases |x|
  {
    if x == [] {
      assert x + y == y;
    } else {
      assert (x + y)[..64] == x[..64] && (x + y)[64..] == x[64..] + y;
      FoldConcat(f, f(h, x[..64]), x[64..], y);
    }
  }

  lemma FoldOne(f: Compression, h: Words, x: Bytes, block: Bytes)
    requires |x| % 64 == 0 && |block| == 64
    ensures Fold(f, h, x + block) == f(Fold(f, h, x), block)
  {
    FoldConcat(f, h, x, block);
    assert block[..64] == block && block[64..] == [];
  }

  // ---- The hasher --------------------------------------------------------------------------

  class Hasher {
    const compress: Compression
    var state: Words
    const buffer: array<byte>
    var bufferLen: nat
    var totalLen: u64
    /** Everything fed so far. */
    ghost var fed: Bytes

    /** The bytes already digested. */
    ghost function Digested(): Bytes
      requires bufferLen <= |fed|
      reads this
    {
      fed[..|fed| - bufferLen]
    }

    /** Whole blocks have been digested; the rest is in the buffer. */
    ghost predicate Buffered()
      reads this, buffer
    {
      && buffer.Length == 64 && bufferLen < 64 && bufferLen <= |fed| && |Digested()| % 64 == 0
      && state == Fold(compress, INITIAL, Digested())
      && buffer[..bufferLen] == fed[|fed| - bufferLen..]
    }

    ghost predicate Valid()
      reads this, buffer
    {
      Buffered() && totalLen == |fed| % TWO_64
    }

    constructor (f: Compression)
      ensures Valid() && fed == [] && compress == f && fresh(buffer)
    {
      compress, state, bufferLen, totalLen, fed := f, INITIAL, 0, 0, [];
      buffer := new byte[64](i => 0);
    }

    /** Digest one block after what has been digested before. */
    method DigestBlock(block: Bytes, ghost done: Bytes)
      requires |block| == 64 && |done| % 64 == 0 && state == Fold(compress, INITIAL, done)
      modifies this`state
      ensures state == Fold(compress, INITIAL, done + block)
    {
      FoldOne(compress, INITIAL, done, block);
      state := compress(state, block);
    }

    /** Fill up a partly filled buffer, and digest it once it is full. */
    method TopUp(data: Bytes) returns (rest: Bytes)
      requires Buffered()
      modifies this`state, this`bufferLen, this`fed, buffer
      ensures Buffered() && fed + rest == old(fed) + data
      ensures bufferLen > 0 ==> rest == []
    {
      hide Fold;
      if bufferLen == 0 {
        return data;
      }
      var take := Min(64 - bufferLen, |data|);
      rest := data[take..];
      assert data == data[..take] + rest;
      ghost var done := Digested();
      assert fed == done + buffer[..bufferLen];
      Append(buffer, bufferLen, data[..take]);
      bufferLen := bufferLen + take;
      fed := fed + data[..take];
      assert fed == done + buffer[..bufferLen];
      if bufferLen == 64 {
        assert buffer[..] == buffer[..64];
        DigestBlock(buffer[..], done);
        bufferLen := 0;
        assert Digested() == fed;
      } else {
        assert Digested() == done;
      }
    }

    /** Digest a whole block straight from the input. */
    method TakeBlock(block: Bytes)
      requires Buffered() && bufferLen == 0 && |block| == 64
      modifies this`state, this`fed
      ensures Buffered() && fed == old(fed) + block
    {
      hide Fold;
      assert Digested() == fed;
      DigestBlock(block, fed);
      fed := fed + block;
      assert Digested() == fed;
    }

    /** Keep an incomplete block for later. */
    method KeepRest(rest: Bytes)
      requires Buffered() && bufferLen == 0 && |rest| < 64
      modifies this`bufferLen, this`fed, buffer
      ensures Buffered() && fed == old(fed) + rest
    {
      hide Fold;
      assert Digested() == fed;
      CopyAt(buffer, 0, rest);
      bufferLen := |rest|;
      fed := fed + rest;
      assert buffer[..bufferLen] == rest && Digested() == old(fed);
    }

    method Update(data: Bytes)
      requires Valid()
      modifies this, buffer
      ensures Valid() && fed == old(fed) + data
    {
      hide Fold;
      WrapAdd(|fed|, |data|);
      ghost var whole := fed + data;
      totalLen := (totalLen + |data|) % TWO_64;
      var rest := TopUp(data);
      while |rest| >= 64
        invariant Buffered() && fed + rest == whole && (bufferLen > 0 ==> rest == [])
        invariant totalLen == |whole| % TWO_64
        decreases |rest|
      {
        assert rest == rest[..64] + rest[64..];
        TakeBlock(rest[..64]);
        rest := rest[64..];
      }
      if rest != [] {
        KeepRest(rest);
      }
    }

    /** Pad and digest what is left; one block if the length fits behind the marker, two otherwise. */
    method Finish() returns (out: Bytes)
      requires Valid()
      modifies this`state
      ensures out == Hash(compress, fed)
    {
      hide BigEndian, Fold, Zeros;
      var bits := 8 * totalLen % TWO_64;
      BitCount(|fed|);
      ghost var done := Digested();
      assert fed == done + buffer[..bufferLen];
      PadSplits(done, buffer[..bufferLen]);
      PadIsStandard(fed);
      var block := MarkedBlock(buffer[..bufferLen]);
      if bufferLen + 1 > 56 {
        DigestBlock(block[..], done);
        var second := LengthBlock(bits);
        DigestBlock(second[..], done + block[..]);
      } else {
        PutLength(block, bits, buffer[..bufferLen]);
        DigestBlock(block[..], done);
      }
      out := SpellOut(state);
    }
  }

  method Append(buffer: array<byte>, at: nat, data: Bytes)
    requires at + |data| <= buffer.Length
    modifies buffer
    ensures buffer[..at + |data|] == old(buffer[..at]) + data
  {
    CopyAt(buffer, at, data);
  }

  /** The bytes left, the marker, and zeros up to the end of the block. */
  method MarkedBlock(data: Bytes) returns (block: array<byte>)
    requires |data| < 64
    ensures fresh(block) && block.Length == 64 && block[..] == data + [0x80] + Zeros(63 - |data|)
  {
    block := new byte[64](i => 0);
    CopyAt(block, 0, data);
    block[|data|] := 0x80;
  }

  method LengthBlock(bits: u64) returns (block: array<byte>)
    ensures fresh(block) && block.Length == 64 && block[..] == Zeros(56) + BigEndian(bits, 8)
  {
    hide BigEndian;
    block := new byte[64](i => 0);
    CopyAt(block, 56, BigEndian(bits, 8));
  }

  method PutLength(block: array<byte>, bits: u64, ghost data: Bytes)
    requires |data| <= 55 && block.Length == 64 && block[..] == data + [0x80] + Zeros(63 - |data|)
    modifies block
    ensures block[..] == data + [0x80] + Zeros(55 - |data|) + BigEndian(bits, 8)
  {
    hide BigEndian;
    ghost var before := block[..];
    CopyAt(block, 56, BigEndian(bits, 8));
    assert before[..56] == data + [0x80] + Zeros(55 - |data|);
    assert block[..56] == before[..56];
  }

  lemma WrapAdd(a: nat, b: nat)
    ensures (a % TWO_64 + b) % TWO_64 == (a + b) % TWO_64
  {
  }

  lemma BitCount(n: nat)
    ensures 8 * (n % TWO_64) % TWO_64 == 8 * n % TWO_64
  {
    assert n == TWO_64 * (n / TWO_64) + n % TWO_64;
    Multiple(8 * (n % TWO_64), 8 * (n / TWO_64));
  }

  lemma {:induction false} Multiple(a: nat, k: nat)
    ensures (a + TWO_64 * k) % TWO_64 == a % TWO_64
    decreases k
  {
    if k > 0 {
      Multiple(a, k - 1);
      assert a + TWO_64 * k == a + TWO_64 * (k - 1) + TWO_64;
    }
  }

  /** The padding in terms of the last, incomplete block. */
  lemma PadSplits(done: Bytes, held: Bytes)
    requires |done| % 64 == 0 && |held| < 64
    ensures var length := BigEndian(8 * |done + held| % TWO_64, 8); var n := |held|;
      Pad(done + held) ==
        if n >= 56 then done + (held + [0x80] + Zeros(63 - n)) + (Zeros(56) + length)
        else done + (held + [0x80] + Zeros(55 - n) + length)
  {
    hide BigEndian;
    var n := |held|;
    assert |done + held| % 64 == n;
    if n >= 56 {
      assert Zeros(119 - n) == Zeros(63 - n) + Zeros(56);
    }
  }

  method SpellOut(h: Words) returns (out: Bytes)
    ensures out == Spell(h)
  {
    hide BigEndian;
    out := [];
    assert h[0..] == h;
    for i := 0 to |h|
      invariant out + Spell(h[i..]) == Spell(h)
    {
      assert h[i..][1..] == h[i + 1..];
      out := out + BigEndian(h[i], 4);
    }
    assert out + [] == out;
  }

  function Joined(chunks: seq<Bytes>): Bytes {
    if chunks == [] then [] else Joined(chunks[..|chunks| - 1]) + chunks[|chunks| - 1]
  }

  /** However a message is cut into updates, the digest is that of the padded message. */
  method HashInPieces(f: Compression, chunks: seq<Bytes>) returns (out: Bytes)
    ensures out == Hash(f, Joined(chunks))
  {
    var h := new Hasher(f);
    for i := 0 to |chunks|
      invariant fresh(h) && fresh(h.buffer) && h.Valid() && h.compress == f && h.fed == Joined(chunks[..i])
    {
      assert chunks[..i + 1][..i] == chunks[..i];
      h.Update(chunks[i]);
    }
    assert chunks[..|chunks|] == chunks;
    out := h.Finish();
  }
}

/**
 * Blocks: splitting a payload, checking a block list, reassembling a payload, and the
 * reference-counted arena that stores each distinct block once.
 */
module Storage {
  import opened Prelude

  const MAX_BLOCKS: nat := 0x100_0000

  datatype BlockRef = BlockRef(hash: Digest, offset: u64, len: u64, crc: u32)

  /** The block reference of the stretch `payload[from..to]`. */
  function RefOf(c: Content, payload: Bytes, from: nat, to: nat): BlockRef
    requires from <= to <= |payload| < TWO_64
  {
    BlockRef(c.hash(payload[from..to]), from, to - from, c.crc(payload[from..to]))
  }

  function ChunkFrom(c: Content, payload: Bytes, size: nat, from: nat): seq<BlockRef>
    requires 0 < size && from <= |payload| < TWO_64
    decreases |payload| - from
  {
    if from == |payload| then []
    else
      var to := from + Min(size, |payload| - from);
      [RefOf(c, payload, from, to)] + ChunkFrom(c, payload, size, to)
  }

  function CeilDiv(a: nat, b: nat): nat
    requires 0 < b
  {
    (a + b - 1) / b
  }

  /** The specification of splitting a payload. */
  function Chunk(c: Content, payload: Bytes, size: nat): Result<seq<BlockRef>>
    requires |payload| < TWO_64
  {
    if size == 0 then Err(InvalidArgument)
    else if CeilDiv(|payload|, size) > MAX_BLOCKS then Err(Geometry)
    else Ok(ChunkFrom(c, payload, size, 0))
  }

  method ChunkPayload(c: Content, payload: Bytes, size: nat) returns (r: Result<seq<BlockRef>>)
    requires |payload| < TWO_64
    ensures r == Chunk(c, payload, size)
  {
    hide CeilDiv, RefOf;
    if size == 0 {
      return Err(InvalidArgument);
    }
    if CeilDiv(|payload|, size) > MAX_BLOCKS {
      return Err(Geometry);
    }
    var out: seq<BlockRef> := [];
    var offset := 0;
    while offset < |payload|
      invariant 0 <= offset <= |payload|
      invariant out + ChunkFrom(c, payload, size, offset) == ChunkFrom(c, payload, size, 0)
    {
      var end := offset + Min(size, |payload| - offset);
      out := out + [RefOf(c, payload, offset, end)];
      offset := end;
    }
    assert out + [] == out;
    return Ok(out);
  }

  // ---- Block-list validation ---------------------------------------------------------------

  /** One pass of the validator from position `i`, with the machine's wrapping addition. */
  predicate AcceptsFrom(blocks: seq<BlockRef>, byteLen: u64, i: nat, expected: u64, seen: set<(int, int)>)
    requires i <= |blocks|
    decreases |blocks| - i
  {
    if i == |blocks| then expected == byteLen
    else
      var b := blocks[i];
      var end := (b.offset + b.len) % TWO_64;
      && b.len != 0 && b.offset == expected && end <= byteLen && (b.offset, b.len) !in seen
      && AcceptsFrom(blocks, byteLen, i + 1, end, seen + {(b.offset, b.len)})
  }

  predicate Accepts(blocks: seq<BlockRef>, byteLen: u64) {
    |blocks| <= MAX_BLOCKS && AcceptsFrom(blocks, byteLen, 0, 0, {})
  }

  method ValidateBlockList(blocks: seq<BlockRef>, byteLen: u64) returns (ok: bool)
    ensures ok == Accepts(blocks, byteLen)
  {
    if |blocks| > MAX_BLOCKS {
      return false;
    }
    var expected: u64 := 0;
    var seen: set<(int, int)> := {};
    for i := 0 to |blocks|
      invariant AcceptsFrom(blocks, byteLen, 0, 0, {}) == AcceptsFrom(blocks, byteLen, i, expected, seen)
    {
      var b := blocks[i];
      var end: u64 := (b.offset + b.len) % TWO_64;
      if b.len == 0 || b.offset != expected || end > byteLen || (b.offset, b.len) in seen {
        return false;
      }
      seen := seen + {(b.offset, b.len)};
      expected := end;
    }
    return expected == byteLen;
  }

  function End(b: BlockRef): nat {
    b.offset + b.len
  }

  ghost predicate InSome(blocks: seq<BlockRef>, p: nat) {
    exists i :: 0 <= i < |blocks| && blocks[i].offset <= p < End(blocks[i])
  }

  /** The stretches of the blocks are disjoint, in order, non-empty, and together are [from, to). */
  ghost predicate Covers(blocks: seq<BlockRef>, from: nat, to: nat) {
    && (forall i :: 0 <= i < |blocks| ==> blocks[i].len > 0 && from <= blocks[i].offset && End(blocks[i]) <= to)
    && (forall i, j :: 0 <= i < j < |blocks| ==> End(blocks[i]) <= blocks[j].offset)
    && (forall p :: from <= p < to ==> InSome(blocks, p))
  }

  ghost predicate NoWrap(blocks: seq<BlockRef>) {
    forall i :: 0 <= i < |blocks| ==> End(blocks[i]) < TWO_64
  }

  /** The sequential form of an exact cover: each block starts where the last one ended. */
  ghost predicate Chained(blocks: seq<BlockRef>, from: nat, to: nat)
    decreases |blocks|
  {
    if blocks == [] then from == to
    else
      && blocks[0].len > 0 && blocks[0].offset == from && End(blocks[0]) <= to
      && Chained(blocks[1..], End(blocks[0]), to)
  }

  lemma {:induction false} ChainedBounds(blocks: seq<BlockRef>, from: nat, to: nat)
    requires Chained(blocks, from, to)
    ensures from <= to
    ensures forall i :: 0 <= i < |blocks| ==> blocks[i].len > 0 && from <= blocks[i].offset && End(blocks[i]) <= to
    decreases |blocks|
  {
    if blocks != [] {
      ChainedBounds(blocks[1..], End(blocks[0]), to);
      assert forall i :: 1 <= i < |blocks| ==> blocks[i] == blocks[1..][i - 1];
    }
  }

  lemma {:induction false} ChainedCovers(blocks: seq<BlockRef>, from: nat, to: nat)
    requires Chained(blocks, from, to)
    ensures Covers(blocks, from, to)
    decreases |blocks|
  {
    ChainedBounds(blocks, from, to);
    if blocks != [] {
      var rest := blocks[1..];
      ChainedCovers(rest, End(blocks[0]), to);
      assert forall i :: 1 <= i < |blocks| ==> blocks[i] == rest[i - 1];
      forall p | from <= p < to
        ensures InSome(blocks, p)
      {
        if p >= End(blocks[0]) {
          assert InSome(rest, p);
          var i :| 0 <= i < |rest| && rest[i].offset <= p < End(rest[i]);
          assert blocks[i + 1] == rest[i];
        } else {
          assert blocks[0].offset <= p;
        }
      }
    }
  }

  lemma {:induction false} CoversChained(blocks: seq<BlockRef>, from: nat, to: nat)
    requires from <= to && Covers(blocks, from, to)
    ensures Chained(blocks, from, to)
    decreases |blocks|
  {
    if blocks == [] {
      assert from < to ==> InSome(blocks, from);
    } else {
      var b, rest := blocks[0], blocks[1..];
      assert forall i :: 0 <= i < |rest| ==> rest[i] == blocks[i + 1];
      assert b.offset == from by {
        assert End(b) <= to && InSome(blocks, from);
        var i :| 0 <= i < |blocks| && blocks[i].offset <= from < End(blocks[i]);
      }
      forall p | End(b) <= p < to
        ensures InSome(rest, p)
      {
        assert InSome(blocks, p);
        var i :| 0 <= i < |blocks| && blocks[i].offset <= p < End(blocks[i]);
        assert rest[i - 1] == blocks[i];
      }
      CoversChained(rest, End(b), to);
    }
  }

  /** Without wrap-around the remembered identities never matter: the duplicate branch is dead. */
  lemma {:induction false} AcceptsIsChained(blocks: seq<BlockRef>, byteLen: u64, i: nat, expected: u64,
                                            seen: set<(int, int)>)
    requires i <= |blocks| && NoWrap(blocks)
    requires forall s :: s in seen ==> s.0 < expected
    ensures AcceptsFrom(blocks, byteLen, i, expected, seen) == Chained(blocks[i..], expected, byteLen)
    decreases |blocks| - i
  {
    if i < |blocks| {
      var b := blocks[i];
      assert blocks[i..][0] == b && blocks[i..][1..] == blocks[i + 1..];
      if b.len != 0 && b.offset == expected && End(b) <= byteLen {
        AcceptsIsChained(blocks, byteLen, i + 1, End(b), seen + {(b.offset, b.len)});
      }
    }
  }

  /** Acceptance is exactly a gap-free, overlap-free cover, when no block's end wraps around. */
  lemma AcceptanceIsExactCover(blocks: seq<BlockRef>, byteLen: u64)
    requires NoWrap(blocks)
    ensures Accepts(blocks, byteLen) <==> |blocks| <= MAX_BLOCKS && Covers(blocks, 0, byteLen)
  {
    AcceptsIsChained(blocks, byteLen, 0, 0, {});
    assert blocks[0..] == blocks;
    if Chained(blocks, 0, byteLen) {
      ChainedCovers(blocks, 0, byteLen);
    } else if Covers(blocks, 0, byteLen) {
      CoversChained(blocks, 0, byteLen);
    }
  }

  /** With wrap-around a list that covers nothing of the sort is accepted. */
  lemma WrappedListIsAccepted(d: Digest)
    ensures var blocks := [BlockRef(d, 0, 1, 0), BlockRef(d, 1, U64_MAX, 0), BlockRef(d, 0, 2, 0)];
            Accepts(blocks, 2) && !Covers(blocks, 0, 2)
  {
    var blocks := [BlockRef(d, 0, 1, 0), BlockRef(d, 1, U64_MAX, 0), BlockRef(d, 0, 2, 0)];
    assert (1 + U64_MAX) % TWO_64 == 0;
    assert AcceptsFrom(blocks, 2, 3, 2, {(0, 1), (1, U64_MAX), (0, 2)});
    assert AcceptsFrom(blocks, 2, 2, 0, {(0, 1), (1, U64_MAX)});
    assert AcceptsFrom(blocks, 2, 1, 1, {(0, 1)});
    assert {} + {(0, 1)} == {(0, 1)};
    assert AcceptsFrom(blocks, 2, 0, 0, {});
    assert End(blocks[1]) > 2;
  }

  // ---- Reassembly --------------------------------------------------------------------------

  function Gather(c: Content, blocks: seq<BlockRef>, get: Digest -> Result<Bytes>): Result<Bytes> {
    if blocks == [] then Ok([])
    else
      var b := blocks[0];
      var data :- get(b.hash);
      if |data| != b.len || c.crc(data) != b.crc then Err(Integrity)
      else
        var rest :- Gather(c, blocks[1..], get);
        Ok(data + rest)
  }

  /** The specification of reassembly from a block provider. */
  function Reassemble(c: Content, blocks: seq<BlockRef>, byteLen: u64, get: Digest -> Result<Bytes>): Result<Bytes> {
    if Accepts(blocks, byteLen) then Gather(c, blocks, get) else Err(Geometry)
  }

  function Prepend(prefix: Bytes, r: Result<Bytes>): (s: Result<Bytes>)
    ensures prefix == [] ==> s == r
  {
    if r.Err? then r else
      assert prefix == [] ==> prefix + r.value == r.value;
      Ok(prefix + r.value)
  }

  method CopyAt(out: array<byte>, at: nat, data: Bytes)
    requires at + |data| <= out.Length
    modifies out
    ensures forall j :: 0 <= j < at ==> out[j] == old(out[j])
    ensures forall j :: at <= j < at + |data| ==> out[j] == data[j - at]
    ensures forall j :: at + |data| <= j < out.Length ==> out[j] == old(out[j])
  {
    for k := 0 to |data|
      invariant forall j :: 0 <= j < at ==> out[j] == old(out[j])
      invariant forall j :: at <= j < at + k ==> out[j] == data[j - at]
      invariant forall j :: at + k <= j < out.Length ==> out[j] == old(out[j])
    {
      out[at + k] := data[k];
    }
  }

  /** One step of the reassembly loop, on the specification's side. */
  lemma GatherStep(c: Content, blocks: seq<BlockRef>, i: nat, get: Digest -> Result<Bytes>, done: Bytes)
    requires i < |blocks|
    requires Gather(c, blocks, get) == Prepend(done, Gather(c, blocks[i..], get))
    ensures var b := blocks[i];
      if get(b.hash).Err? then Gather(c, blocks, get) == Err(get(b.hash).error)
      else if |get(b.hash).value| != b.len || c.crc(get(b.hash).value) != b.crc then
        Gather(c, blocks, get) == Err(Integrity)
      else Gather(c, blocks, get) == Prepend(done + get(b.hash).value, Gather(c, blocks[i + 1..], get))
  {
    assert blocks[i..][0] == blocks[i] && blocks[i..][1..] == blocks[i + 1..];
    var tail := Gather(c, blocks[i + 1..], get);
    if get(blocks[i].hash).Ok? && tail.Ok? {
      assert done + (get(blocks[i].hash).value + tail.value) == (done + get(blocks[i].hash).value) + tail.value;
    }
  }

  predicate Good(c: Content, b: BlockRef, got: Result<Bytes>) {
    got.Ok? && |got.value| == b.len && c.crc(got.value) == b.crc
  }

  lemma {:induction false} GatheredAreGood(c: Content, blocks: seq<BlockRef>, get: Digest -> Result<Bytes>, j: nat)
    requires Gather(c, blocks, get).Ok? && j < |blocks|
    ensures Good(c, blocks[j], get(blocks[j].hash))
  {
    if j > 0 {
      assert blocks[1..][j - 1] == blocks[j];
      GatheredAreGood(c, blocks[1..], get, j - 1);
    }
  }

  lemma {:induction false} GatherSnoc(c: Content, blocks: seq<BlockRef>, b: BlockRef, get: Digest -> Result<Bytes>)
    requires Gather(c, blocks, get).Ok? && Good(c, b, get(b.hash))
    ensures Gather(c, blocks + [b], get) == Ok(Gather(c, blocks, get).value + get(b.hash).value)
  {
    if blocks == [] {
      assert [b][1..] == [] && blocks + [b] == [b];
      assert Gather(c, [b][1..], get) == Ok([]);
      assert get(b.hash).value + [] == [] + get(b.hash).value;
    } else {
      assert (blocks + [b])[1..] == blocks[1..] + [b];
      GatherSnoc(c, blocks[1..], b, get);
      var x, y, z := get(blocks[0].hash).value, Gather(c, blocks[1..], get).value, get(b.hash).value;
      assert x + (y + z) == (x + y) + z;
    }
  }

  /** The copy of some block, reached with every block up to it sound, would run past the buffer. */
  ghost predicate Traps(c: Content, blocks: seq<BlockRef>, byteLen: u64, get: Digest -> Result<Bytes>) {
    Accepts(blocks, byteLen) && exists k ::
      0 <= k < |blocks| && End(blocks[k]) > byteLen && Gather(c, blocks[..k + 1], get).Ok?
  }

  lemma BadBlockStops(c: Content, blocks: seq<BlockRef>, byteLen: u64, get: Digest -> Result<Bytes>, i: nat)
    requires i < |blocks| && !Good(c, blocks[i], get(blocks[i].hash)) && forall j :: 0 <= j < i ==>
      End(blocks[j]) <= byteLen
    ensures !Traps(c, blocks, byteLen, get)
  {
    forall k | 0 <= k < |blocks| && End(blocks[k]) > byteLen
      ensures Gather(c, blocks[..k + 1], get).Err?
    {
      if Gather(c, blocks[..k + 1], get).Ok? {
        GatheredAreGood(c, blocks[..k + 1], get, i);
      }
    }
  }

  /**
   * Reassembly into a zeroed buffer, block by block at its own offset. On an accepted list whose ends wrap around, the
   * copy of a block past the buffer stops the program; otherwise the result is the specified one.
   */
  method ReassembleInto(c: Content, blocks: seq<BlockRef>, byteLen: u64, get: Digest -> Result<Bytes>)
    returns (r: Result<Bytes>, trapped: bool)
    ensures trapped <==> Traps(c, blocks, byteLen, get)
    ensures trapped ==> !NoWrap(blocks)
    ensures !trapped ==> r == Reassemble(c, blocks, byteLen, get)
  {
    hide Gather, AcceptsFrom, NoWrap, Chained, Traps;
    var ok := ValidateBlockList(blocks, byteLen);
    if !ok {
      assert !Traps(c, blocks, byteLen, get) by { RefusedNeverTraps(c, blocks, byteLen, get); }
      return Err(Geometry), false;
    }
    assert NoWrap(blocks) ==> Chained(blocks, 0, byteLen) by { AcceptedIsChained(blocks, byteLen); }
    var out := new byte[byteLen](_ => 0);
    ghost var done: Bytes, seen: set<(int, int)> := [], {};
    assert blocks[0..] == blocks && blocks[..0] == [];
    GatherNothing(c, get);
    for i := 0 to |blocks|
      invariant |done| <= byteLen && AcceptsFrom(blocks, byteLen, i, |done|, seen)
      invariant Gather(c, blocks, get) == Prepend(done, Gather(c, blocks[i..], get))
      invariant Gather(c, blocks[..i], get) == Ok(done)
      invariant forall j :: 0 <= j < |done| ==> out[j] == done[j]
      invariant forall j :: 0 <= j < i ==> End(blocks[j]) <= byteLen
    {
      var b := blocks[i];
      AcceptsStep(blocks, byteLen, i, |done|, seen);
      GatherStep(c, blocks, i, get, done);
      var got := get(b.hash);
      if got.Err? {
        BadBlockStops(c, blocks, byteLen, get, i);
        return Err(got.error), false;
      }
      if |got.value| != b.len || c.crc(got.value) != b.crc {
        BadBlockStops(c, blocks, byteLen, get, i);
        return Err(Integrity), false;
      }
      GatherSnoc(c, blocks[..i], b, get);
      assert blocks[..i] + [b] == blocks[..i + 1];
      if b.offset + b.len > byteLen {
        OverrunMeansWrap(blocks, byteLen, i);
        OverrunTraps(c, blocks, byteLen, get, i);
        return Err(Geometry), true;
      }
      CopyAt(out, b.offset, got.value);
      done, seen := done + got.value, seen + {(b.offset, b.len)};
    }
    assert blocks[|blocks|..] == [] && done + [] == done;
    AcceptsEnd(blocks, byteLen, |done|, seen);
    assert out[..] == done;
    assert !Traps(c, blocks, byteLen, get) by { FittingNeverTraps(c, blocks, byteLen, get); }
    return Ok(out[..]), false;
  }

  lemma AcceptsStep(blocks: seq<BlockRef>, byteLen: u64, i: nat, expected: u64, seen: set<(int, int)>)
    requires i < |blocks| && AcceptsFrom(blocks, byteLen, i, expected, seen)
    ensures var b := blocks[i];
      b.offset == expected
        && (End(b) <= byteLen ==> AcceptsFrom(blocks, byteLen, i + 1, End(b), seen + {(b.offset, b.len)}))
  {
  }

  lemma AcceptsEnd(blocks: seq<BlockRef>, byteLen: u64, expected: u64, seen: set<(int, int)>)
    requires AcceptsFrom(blocks, byteLen, |blocks|, expected, seen)
    ensures expected == byteLen
  {
  }

  lemma RefusedNeverTraps(c: Content, blocks: seq<BlockRef>, byteLen: u64, get: Digest -> Result<Bytes>)
    requires !Accepts(blocks, byteLen)
    ensures !Traps(c, blocks, byteLen, get)
  {
  }

  lemma FittingNeverTraps(c: Content, blocks: seq<BlockRef>, byteLen: u64, get: Digest -> Result<Bytes>)
    requires forall j :: 0 <= j < |blocks| ==> End(blocks[j]) <= byteLen
    ensures !Traps(c, blocks, byteLen, get)
  {
  }

  lemma OverrunTraps(c: Content, blocks: seq<BlockRef>, byteLen: u64, get: Digest -> Result<Bytes>, i: nat)
    requires Accepts(blocks, byteLen) && i < |blocks| && End(blocks[i]) > byteLen && Gather(c, blocks[..i + 1], get).Ok?
    ensures Traps(c, blocks, byteLen, get)
  {
  }

  lemma GatherNothing(c: Content, get: Digest -> Result<Bytes>)
    ensures Gather(c, [], get) == Ok([])
  {
  }

  lemma AcceptedIsChained(blocks: seq<BlockRef>, byteLen: u64)
    requires Accepts(blocks, byteLen)
    ensures NoWrap(blocks) ==> Chained(blocks, 0, byteLen)
  {
    if NoWrap(blocks) {
      AcceptsIsChained(blocks, byteLen, 0, 0, {});
      assert blocks[0..] == blocks;
    }
  }

  lemma OverrunMeansWrap(blocks: seq<BlockRef>, byteLen: u64, i: nat)
    requires i < |blocks| && End(blocks[i]) > byteLen && (NoWrap(blocks) ==> Chained(blocks, 0, byteLen))
    ensures !NoWrap(blocks)
  {
    if NoWrap(blocks) {
      ChainedBounds(blocks, 0, byteLen);
    }
  }

  // ---- Chunking and reassembly are inverse -------------------------------------------------

  /** What is gathered along a chain of blocks is their bytes at their places, each of its length and checksum. */
  lemma {:induction false} GatheredInPlace(c: Content, blocks: seq<BlockRef>, from: nat, to: nat,
                                           get: Digest -> Result<Bytes>, j: nat)
    requires Chained(blocks, from, to) && Gather(c, blocks, get).Ok?
    ensures from <= to && |Gather(c, blocks, get).value| == to - from
    ensures j < |blocks| ==>
      && from <= blocks[j].offset && End(blocks[j]) <= to && Good(c, blocks[j], get(blocks[j].hash))
      && Gather(c, blocks, get).value[blocks[j].offset - from..End(blocks[j]) - from] == get(blocks[j].hash).value
    decreases |blocks|
  {
    if blocks != [] {
      var b, x := blocks[0], Gather(c, blocks, get).value;
      var data, rest := get(b.hash).value, Gather(c, blocks[1..], get).value;
      GatheredInPlace(c, blocks[1..], End(b), to, get, if j == 0 then 0 else j - 1);
      assert x == data + rest && |data| == End(b) - from;
      if 0 < j < |blocks| {
        var bj := blocks[1..][j - 1];
        assert bj == blocks[j];
        assert x[bj.offset - from..End(bj) - from] == rest[bj.offset - End(b)..End(bj) - End(b)];
      }
    }
  }

  /**
   * Whatever the provider returns: bytes that are reassembled have the length asked for, and at the place of each block
   * they are what the provider gave for it, of the block's length and with the block's checksum.
   */
  lemma ReassembledIsChecked(c: Content, blocks: seq<BlockRef>, byteLen: u64, get: Digest -> Result<Bytes>, j: nat)
    requires NoWrap(blocks) && Reassemble(c, blocks, byteLen, get).Ok?
    ensures var x := Reassemble(c, blocks, byteLen, get).value;
      && |x| == byteLen
      && (j < |blocks| ==>
          && End(blocks[j]) <= byteLen && get(blocks[j].hash) == Ok(x[blocks[j].offset..End(blocks[j])])
          && c.crc(x[blocks[j].offset..End(blocks[j])]) == blocks[j].crc)
  {
    hide Gather, Accepts;
    AcceptedIsChained(blocks, byteLen);
    GatheredInPlace(c, blocks, 0, byteLen, get, j);
  }

  lemma {:induction false} ChunkIsChained(c: Content, payload: Bytes, size: nat, from: nat)
    requires 0 < size && from <= |payload| < TWO_64
    ensures Chained(ChunkFrom(c, payload, size, from), from, |payload|)
    ensures NoWrap(ChunkFrom(c, payload, size, from))
    decreases |payload| - from
  {
    if from < |payload| {
      var to := from + Min(size, |payload| - from);
      ChunkIsChained(c, payload, size, to);
      var bs := ChunkFrom(c, payload, size, from);
      assert bs[1..] == ChunkFrom(c, payload, size, to);
      assert forall i :: 1 <= i < |bs| ==> bs[i] == bs[1..][i - 1];
    }
  }

  lemma {:induction false} ChunkCount(c: Content, payload: Bytes, size: nat, from: nat)
    requires 0 < size && from <= |payload| < TWO_64
    ensures var n := |ChunkFrom(c, payload, size, from)|; n > 0 ==> (n - 1) * size < |payload| - from
    decreases |payload| - from
  {
    var left := |payload| - from;
    if left > size {
      ChunkCount(c, payload, size, from + size);
      var n := |ChunkFrom(c, payload, size, from)|;
      assert (n - 1) * size == (n - 2) * size + size;
    } else if left > 0 {
      assert ChunkFrom(c, payload, size, |payload|) == [];
    }
  }

  lemma ProductAbove(a: nat, b: nat, k: nat)
    requires a >= b
    ensures a * k >= b * k
  {
    assert a * k == (a - b) * k + b * k;
  }

  lemma ChunkWithinLimit(c: Content, payload: Bytes, size: nat)
    requires 0 < size && |payload| < TWO_64 && CeilDiv(|payload|, size) <= MAX_BLOCKS
    ensures |ChunkFrom(c, payload, size, 0)| <= MAX_BLOCKS
  {
    var n, top := |ChunkFrom(c, payload, size, 0)|, |payload| + size - 1;
    ChunkCount(c, payload, size, 0);
    assert top == (top / size) * size + top % size;
    if n > MAX_BLOCKS {
      ProductAbove(n - 1, top / size, size);
    }
  }

  /** The references a chunked payload carries describe the payload's own stretches. */
  ghost predicate Describes(c: Content, payload: Bytes, b: BlockRef) {
    && End(b) <= |payload| && b.hash == c.hash(payload[b.offset..End(b)])
    && b.crc == c.crc(payload[b.offset..End(b)])
  }

  lemma {:induction false} ChunkDescribes(c: Content, payload: Bytes, size: nat, from: nat)
    requires 0 < size && from <= |payload| < TWO_64
    ensures forall b :: b in ChunkFrom(c, payload, size, from) ==> Describes(c, payload, b)
    decreases |payload| - from
  {
    if from < |payload| {
      ChunkDescribes(c, payload, size, from + Min(size, |payload| - from));
    }
  }

  /** Whatever chunk returns, the validator accepts, and it is an exact cover of the payload. */
  lemma ChunkIsAccepted(c: Content, payload: Bytes, size: nat)
    requires |payload| < TWO_64 && Chunk(c, payload, size).Ok?
    ensures NoWrap(Chunk(c, payload, size).value)
    ensures Accepts(Chunk(c, payload, size).value, |payload|)
    ensures Covers(Chunk(c, payload, size).value, 0, |payload|)
    ensures forall b :: b in Chunk(c, payload, size).value ==> Describes(c, payload, b)
  {
    var bs := ChunkFrom(c, payload, size, 0);
    ChunkIsChained(c, payload, size, 0);
    ChunkWithinLimit(c, payload, size);
    ChunkDescribes(c, payload, size, 0);
    ChainedCovers(bs, 0, |payload|);
    AcceptanceIsExactCover(bs, |payload|);
  }

  /** A provider that yields the payload's own stretch for each of the blocks. */
  lemma {:induction false} ChunkAt(c: Content, payload: Bytes, size: nat, from: nat, i: nat)
    requires 0 < size && from <= |payload| < TWO_64 && i < |ChunkFrom(c, payload, size, from)|
    ensures from + i * size < |payload|
    ensures ChunkFrom(c, payload, size, from)[i] ==
      RefOf(c, payload, from + i * size, Min(from + i * size + size, |payload|))
    decreases i
  {
    hide RefOf;
    if i > 0 {
      var to := from + Min(size, |payload| - from);
      ChunkAt(c, payload, size, to, i - 1);
      assert (i - 1) * size + size == i * size;
      assert (i - 1) * size >= 0;
    }
  }

  /**
   * The i-th block starts at i times the block size and is a whole block, or what is left of the payload; it carries
   * the digest and the checksum of exactly those bytes.
   */
  lemma ChunkShape(c: Content, payload: Bytes, size: nat, i: nat)
    requires |payload| < TWO_64 && Chunk(c, payload, size).Ok? && i < |Chunk(c, payload, size).value|
    ensures var b := Chunk(c, payload, size).value[i];
      && b.offset == i * size && b.len == Min(size, |payload| - i * size)
      && b.offset + b.len <= |payload| && b.hash == c.hash(payload[b.offset..b.offset + b.len])
      && b.crc == c.crc(payload[b.offset..b.offset + b.len])
  {
    ChunkAt(c, payload, size, 0, i);
  }

  ghost predicate Provides(get: Digest -> Result<Bytes>, payload: Bytes, blocks: seq<BlockRef>) {
    forall b :: b in blocks ==> End(b) <= |payload| && get(b.hash) == Ok(payload[b.offset..End(b)])
  }

  lemma {:induction false} GatherYields(c: Content, payload: Bytes, blocks: seq<BlockRef>, from: nat,
                                        get: Digest -> Result<Bytes>)
    requires Chained(blocks, from, |payload|) && Provides(get, payload, blocks)
    requires forall b :: b in blocks ==> Describes(c, payload, b)
    ensures from <= |payload| && Gather(c, blocks, get) == Ok(payload[from..])
    decreases |blocks|
  {
    if blocks != [] {
      var b := blocks[0];
      assert b in blocks;
      GatherYields(c, payload, blocks[1..], End(b), get);
      assert payload[from..] == payload[from..End(b)] + payload[End(b)..];
    }
  }

  /** Reassembling a chunked payload gives the payload back, for every block size. */
  lemma ReassembleInvertsChunk(c: Content, payload: Bytes, size: nat, get: Digest -> Result<Bytes>)
    requires |payload| < TWO_64 && Chunk(c, payload, size).Ok?
    requires Provides(get, payload, Chunk(c, payload, size).value)
    ensures Reassemble(c, Chunk(c, payload, size).value, |payload|, get) == Ok(payload)
  {
    ChunkIsAccepted(c, payload, size);
    ChunkIsChained(c, payload, size, 0);
    GatherYields(c, payload, Chunk(c, payload, size).value, 0, get);
  }
}

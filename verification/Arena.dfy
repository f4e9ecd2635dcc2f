/** The reference-counted block arena of the host tier. */
module BlockArena {
  import opened Prelude
  import opened Storage
  import opened Accounting
  import opened Sums

  datatype Arena = Arena(blocks: map<Digest, Bytes>, refs: map<Digest, nat>, bytes: nat)

  const EMPTY_ARENA := Arena(map[], map[], 0)

  function RefCount(a: Arena, h: Digest): nat {
    if h in a.refs then a.refs[h] else 0
  }

  function Acquire(c: Content, a: Arena, data: Bytes): Arena {
    var h := c.hash(data);
    if h in a.blocks then a.(refs := a.refs[h := RefCount(a, h) + 1])
    else Arena(a.blocks[h := data], a.refs[h := 1], a.bytes + |data|)
  }

  /** Give back one reference; the flag says whether the block's bytes were freed. */
  function Release(a: Arena, h: Digest): (Arena, bool) {
    if h !in a.refs then (a, false)
    else if a.refs[h] > 1 then (a.(refs := a.refs[h := a.refs[h] - 1]), false)
    else (Arena(a.blocks - {h}, a.refs - {h}, SatSub(a.bytes, if h in a.blocks then |a.blocks[h]| else 0)), true)
  }

  function Lengths(blocks: map<Digest, Bytes>): map<Digest, nat> {
    map h | h in blocks :: |blocks[h]|
  }

  /** Blocks sit under their own digest, exactly the referenced ones are stored, bytes add up. */
  ghost predicate Consistent(c: Content, a: Arena) {
    && a.blocks.Keys == a.refs.Keys
    && (forall h :: h in a.refs ==> a.refs[h] >= 1)
    && (forall h :: h in a.blocks ==> c.hash(a.blocks[h]) == h)
    && a.bytes == SumValues(Lengths(a.blocks))
  }

  ghost predicate Within(a: Arena, known: iset<Bytes>) {
    forall h :: h in a.blocks ==> a.blocks[h] in known
  }

  lemma AcquireKeepsConsistent(c: Content, a: Arena, data: Bytes)
    requires Consistent(c, a)
    ensures Consistent(c, Acquire(c, a, data))
  {
    var h := c.hash(data);
    if h !in a.blocks {
      SumInsert(Lengths(a.blocks), h, |data|);
      assert Lengths(a.blocks[h := data]) == Lengths(a.blocks)[h := |data|];
    }
  }

  lemma ReleaseKeepsConsistent(c: Content, a: Arena, h: Digest)
    requires Consistent(c, a)
    ensures Consistent(c, Release(a, h).0)
    ensures Release(a, h).1 <==> RefCount(a, h) == 1
    ensures a.bytes == Release(a, h).0.bytes + if Release(a, h).1 then |a.blocks[h]| else 0
  {
    if h in a.refs && a.refs[h] == 1 {
      SumRemove(Lengths(a.blocks), h);
      assert Lengths(a.blocks - {h}) == Lengths(a.blocks) - {h};
    }
  }

  /** An arena that nothing refers to is empty. */
  lemma NothingReferenced(c: Content, arena: Arena)
    requires Consistent(c, arena) && forall h :: RefCount(arena, h) == 0
    ensures arena.blocks == map[] && arena.bytes == 0
  {
    assert forall h :: h in arena.refs ==> RefCount(arena, h) >= 1;
    assert arena.blocks == map[];
    assert Lengths(arena.blocks) == map[];
  }

  // ---- Whole block lists -------------------------------------------------------------------

  /** How often each digest occurs in a block list. */
  function Uses(blocks: seq<BlockRef>): (m: multiset<Digest>)
    ensures forall b :: b in blocks ==> b.hash in m
  {
    if blocks == [] then multiset{} else multiset{blocks[0].hash} + Uses(blocks[1..])
  }

  /** The stretch of the payload that a block stands for. */
  function Stretch(payload: Bytes, b: BlockRef): Bytes
    requires End(b) <= |payload|
  {
    payload[b.offset..End(b)]
  }

  ghost predicate Inside(payload: Bytes, blocks: seq<BlockRef>) {
    forall i :: 0 <= i < |blocks| ==> End(blocks[i]) <= |payload|
  }

  function AcquireAll(c: Content, a: Arena, payload: Bytes, blocks: seq<BlockRef>): Arena
    requires Inside(payload, blocks)
    decreases |blocks|
  {
    if blocks == [] then a
    else
      assert forall b :: b in blocks[1..] ==> b in blocks;
      AcquireAll(c, Acquire(c, a, Stretch(payload, blocks[0])), payload, blocks[1..])
  }

  /** What the code charges for a block list: every occurrence of a block not stored yet. */
  function Charged(have: set<Digest>, blocks: seq<BlockRef>): nat {
    if blocks == [] then 0
    else (if blocks[0].hash in have then 0 else blocks[0].len) + Charged(have, blocks[1..])
  }

  /** What storing a block list really adds: the first occurrence of each block not stored yet. */
  function Added(have: set<Digest>, blocks: seq<BlockRef>): nat
    decreases |blocks|
  {
    if blocks == [] then 0
    else (if blocks[0].hash in have then 0 else blocks[0].len) + Added(have + {blocks[0].hash}, blocks[1..])
  }

  /** No block that still has to be stored occurs twice. */
  ghost predicate NoNewRepeat(have: set<Digest>, blocks: seq<BlockRef>) {
    forall i, j :: 0 <= i < j < |blocks| && blocks[i].hash == blocks[j].hash ==> blocks[i].hash in have
  }

  ghost predicate Positive(blocks: seq<BlockRef>) {
    forall i :: 0 <= i < |blocks| ==> blocks[i].len > 0
  }

  lemma {:induction false} ChargedMonotone(have: set<Digest>, more: set<Digest>, blocks: seq<BlockRef>)
    requires have <= more
    ensures Charged(more, blocks) <= Charged(have, blocks)
    ensures Positive(blocks) ==>
      (Charged(more, blocks) == Charged(have, blocks) <==>
       forall i :: 0 <= i < |blocks| && blocks[i].hash in more ==> blocks[i].hash in have)
    decreases |blocks|
  {
    if blocks != [] {
      ChargedMonotone(have, more, blocks[1..]);
      assert forall i :: 1 <= i < |blocks| ==> blocks[i] == blocks[1..][i - 1];
      assert Positive(blocks) ==> Positive(blocks[1..]);
    }
  }

  /** The charge is never too small, and it is exact if and only if no new block repeats. */
  lemma {:induction false} ChargeExactIffNoRepeat(have: set<Digest>, blocks: seq<BlockRef>)
    ensures Added(have, blocks) <= Charged(have, blocks)
    ensures Positive(blocks) ==> (Added(have, blocks) == Charged(have, blocks) <==> NoNewRepeat(have, blocks))
    decreases |blocks|
  {
    if blocks != [] {
      var b, rest := blocks[0], blocks[1..];
      var more := have + {b.hash};
      ChargeExactIffNoRepeat(more, rest);
      ChargedMonotone(have, more, rest);
      assert forall i :: 1 <= i < |blocks| ==> blocks[i] == rest[i - 1];
      if Positive(blocks) {
        assert Positive(rest);
        assert NoNewRepeat(have, blocks) ==> NoNewRepeat(more, rest);
        if NoNewRepeat(more, rest) && (forall i :: 0 <= i < |rest| && rest[i].hash in more ==> rest[i].hash in have) {
          assert NoNewRepeat(have, blocks);
        }
      }
    }
  }

  ghost predicate StretchesKnown(payload: Bytes, blocks: seq<BlockRef>, known: iset<Bytes>) {
    forall b :: b in blocks ==> End(b) <= |payload| && Stretch(payload, b) in known
  }

  ghost predicate Stores(a: Arena, payload: Bytes, blocks: seq<BlockRef>) {
    forall b :: b in blocks ==> End(b) <= |payload| && b.hash in a.blocks && a.blocks[b.hash] == Stretch(payload, b)
  }

  ghost predicate Keeps(a: Arena, a': Arena) {
    forall h :: h in a.blocks ==> h in a'.blocks && a'.blocks[h] == a.blocks[h]
  }

  lemma AcquireEffect(c: Content, known: iset<Bytes>, a: Arena, data: Bytes)
    requires Consistent(c, a) && Within(a, known) && NoCollision(c, known) && data in known
    ensures var a' := Acquire(c, a, data); var h := c.hash(data);
      && Consistent(c, a') && Within(a', known) && Keeps(a, a')
      && a'.blocks.Keys == a.blocks.Keys + {h} && a'.blocks[h] == data
      && a'.bytes == a.bytes + (if h in a.blocks then 0 else |data|)
  {
    hide Lengths;
    AcquireKeepsConsistent(c, a, data);
  }

  /** Acquiring a payload's blocks stores its stretches, disturbs nothing and adds the new blocks' bytes. */
  lemma {:induction false} AcquireAllStores(c: Content, known: iset<Bytes>, a: Arena, payload: Bytes,
                                            blocks: seq<BlockRef>)
    requires Consistent(c, a) && Within(a, known) && NoCollision(c, known)
    requires StretchesKnown(payload, blocks, known)
    requires forall b :: b in blocks ==> Describes(c, payload, b)
    ensures var a' := AcquireAll(c, a, payload, blocks);
      && Consistent(c, a') && Within(a', known) && Keeps(a, a') && Stores(a', payload, blocks)
      && a'.bytes == a.bytes + Added(a.blocks.Keys, blocks)
    decreases |blocks|
  {
    if blocks != [] {
      var b, rest := blocks[0], blocks[1..];
      assert b in blocks && forall x :: x in rest ==> x in blocks;
      AcquireEffect(c, known, a, Stretch(payload, b));
      AcquireAllStores(c, known, Acquire(c, a, Stretch(payload, b)), payload, rest);
    }
  }

  /** ... and adds one reference per occurrence. */
  lemma {:induction false} AcquireAllCounts(c: Content, a: Arena, payload: Bytes, blocks: seq<BlockRef>, h: Digest)
    requires a.blocks.Keys == a.refs.Keys && Inside(payload, blocks)
    requires forall b :: b in blocks ==> Describes(c, payload, b)
    ensures RefCount(AcquireAll(c, a, payload, blocks), h) == RefCount(a, h) + Uses(blocks)[h]
    decreases |blocks|
  {
    if blocks != [] {
      assert blocks[0] in blocks && forall x :: x in blocks[1..] ==> x in blocks;
      AcquireAllCounts(c, Acquire(c, a, Stretch(payload, blocks[0])), payload, blocks[1..], h);
    }
  }

  /** Release a list of references, taking each freed block off the budget; stops at the first failed subtraction. */
  function ReleaseAll(a: Arena, host: Budget, refs: seq<BlockRef>): (Arena, Budget, bool)
    decreases |refs|
  {
    if refs == [] then (a, host, true)
    else
      var (a1, freed) := Release(a, refs[0].hash);
      if !freed then ReleaseAll(a1, host, refs[1..])
      else
        var (host1, ok) := SubUsed(host, refs[0].len);
        if ok then ReleaseAll(a1, host1, refs[1..]) else (a1, host1, false)
  }

  /** What is left in the arena is untouched, and the budget only shrinks. */
  lemma {:induction false} ReleaseAllKeeps(c: Content, a: Arena, host: Budget, refs: seq<BlockRef>)
    requires Consistent(c, a)
    ensures var (a', host', _) := ReleaseAll(a, host, refs);
      && Consistent(c, a') && Keeps(a', a)
      && host'.capacity == host.capacity && host'.reserved == host.reserved && host'.used <= host.used
    decreases |refs|
  {
    if refs != [] {
      var (a1, freed) := Release(a, refs[0].hash);
      ReleaseKeepsConsistent(c, a, refs[0].hash);
      ReleaseAllKeeps(c, a1, if freed then SubUsed(host, refs[0].len).0 else host, refs[1..]);
    }
  }

  /** A block keeps at least the references nobody gave back; on success the count is exact. */
  lemma {:induction false} ReleaseAllCounts(c: Content, a: Arena, host: Budget, refs: seq<BlockRef>, h: Digest)
    requires Consistent(c, a)
    ensures var (a', _, ok) := ReleaseAll(a, host, refs);
      && RefCount(a, h) <= RefCount(a', h) + Uses(refs)[h] && RefCount(a', h) <= RefCount(a, h)
      && (ok && Uses(refs)[h] <= RefCount(a, h) ==> RefCount(a', h) + Uses(refs)[h] == RefCount(a, h))
    decreases |refs|
  {
    hide Consistent, SubUsed;
    if refs != [] {
      var (a1, freed) := Release(a, refs[0].hash);
      ReleaseKeepsConsistent(c, a, refs[0].hash);
      ReleaseAllCounts(c, a1, if freed then SubUsed(host, refs[0].len).0 else host, refs[1..], h);
    }
  }

  /** The references carry the stored lengths. */
  ghost predicate TrueLengths(a: Arena, refs: seq<BlockRef>) {
    forall b :: b in refs && b.hash in a.blocks ==> b.len == |a.blocks[b.hash]|
  }

  /** While the budget covers the arena, no subtraction fails and both shrink by the same amount. */
  lemma {:induction false} ReleaseAllConserves(c: Content, a: Arena, host: Budget, refs: seq<BlockRef>)
    requires Consistent(c, a) && TrueLengths(a, refs) && a.bytes <= host.used
    ensures var (a', host', ok) := ReleaseAll(a, host, refs);
      ok && host'.used - a'.bytes == host.used - a.bytes
    decreases |refs|
  {
    if refs != [] {
      ReleaseKeepsConsistent(c, a, refs[0].hash);
      var (a1, freed) := Release(a, refs[0].hash);
      assert refs[0] in refs && forall b :: b in refs[1..] ==> b in refs;
      var host1 := if freed then SubUsed(host, refs[0].len).0 else host;
      ReleaseAllConserves(c, a1, host1, refs[1..]);
    }
  }

  // ---- The arena object --------------------------------------------------------------------

  class ArenaCell {
    var blocks: map<Digest, Bytes>
    var refs: map<Digest, nat>
    var bytes: nat

    function View(): Arena
      reads this
    {
      Arena(blocks, refs, bytes)
    }

    constructor ()
      ensures View() == EMPTY_ARENA
    {
      blocks, refs, bytes := map[], map[], 0;
    }

    method AcquireAt(c: Content, data: Bytes, offset: u64) returns (r: BlockRef)
      requires |data| < TWO_64 && blocks.Keys == refs.Keys
      modifies this
      ensures View() == Acquire(c, old(View()), data)
      ensures r == BlockRef(c.hash(data), offset, |data|, c.crc(data))
    {
      var h := c.hash(data);
      if h in blocks {
        refs := refs[h := refs[h] + 1];
      } else {
        blocks := blocks[h := data];
        refs := refs[h := 1];
        bytes := bytes + |data|;
      }
      r := BlockRef(h, offset, |data|, c.crc(data));
    }

    method ReleaseOne(c: Content, h: Digest) returns (freed: bool)
      requires Consistent(c, View())
      modifies this
      ensures (View(), freed) == Release(old(View()), h)
    {
      if h in refs {
        ReleaseKeepsConsistent(c, View(), h);
        ghost var before := refs;
        refs := refs[h := refs[h] - 1];
        if refs[h] == 0 {
          bytes := bytes - |blocks[h]|;
          blocks := blocks - {h};
          refs := refs - {h};
          assert refs == before - {h};
          return true;
        }
      }
      return false;
    }

    function Get(h: Digest): Result<Bytes>
      reads this
    {
      if h in blocks then Ok(blocks[h]) else Err(Reconstruct)
    }
  }
}

/** How taking and giving back blocks keeps each part of the invariant. */
module CacheSteps {
  import opened Prelude
  import opened Storage
  import opened Accounting
  import opened BlockArena
  import opened Sums
  import opened CacheSpec
  import opened CacheLoads
  import opened DiskSafety
  import opened CacheInvariant

  // ---- Host blocks -------------------------------------------------------------------------

  lemma HostAcquired(c: Content, known: iset<Bytes>, arena: Arena, total: multiset<Item>, payload: Bytes,
                     blocks: seq<BlockRef>)
    requires HostOk(c, known, arena, total) && NoCollision(c, known)
    requires Inside(payload, blocks) && StretchesKnown(payload, blocks, known) && forall b :: b in blocks ==>
      Describes(c, payload, b)
    ensures HostOk(c, known, AcquireAll(c, arena, payload, blocks), total + Tagged(blocks, false))
  {
    AcquireAllStores(c, known, arena, payload, blocks);
    forall h
      ensures (total + Tagged(blocks, false))[HostRef(h)] <= RefCount(AcquireAll(c, arena, payload, blocks), h)
    {
      AcquireAllCounts(c, arena, payload, blocks, h);
      TaggedCounts(blocks, false, HostRef(h));
    }
  }

  lemma HostReleased(c: Content, known: iset<Bytes>, arena: Arena, host: Budget, total: multiset<Item>,
                     refs: seq<BlockRef>)
    requires HostOk(c, known, arena, total + Tagged(refs, false))
    ensures HostOk(c, known, ReleaseAll(arena, host, refs).0, total)
  {
    ReleaseAllKeeps(c, arena, host, refs);
    forall h
      ensures total[HostRef(h)] <= RefCount(ReleaseAll(arena, host, refs).0, h)
    {
      ReleaseAllCounts(c, arena, host, refs, h);
      TaggedCounts(refs, false, HostRef(h));
      assert (total + Tagged(refs, false))[HostRef(h)] <= RefCount(arena, h);
    }
  }

  /** Loads of host references do not concern devices or storage, and so on. */
  lemma HostLoadOnly(total: multiset<Item>, refs: seq<BlockRef>)
    ensures var t := total + Tagged(refs, false);
      && t[AnyDeviceByte] == total[AnyDeviceByte]
      && (forall b :: t[DeviceByte(b)] == total[DeviceByte(b)])
      && (forall h :: t[DiskRef(h)] == total[DiskRef(h)])
  {
    TaggedCounts(refs, false, AnyDeviceByte);
    forall b ensures Tagged(refs, false)[DeviceByte(b)] == 0 { TaggedCounts(refs, false, DeviceByte(b)); }
    forall h ensures Tagged(refs, false)[DiskRef(h)] == 0 { TaggedCounts(refs, false, DiskRef(h)); }
  }

  lemma DiskLoadOnly(total: multiset<Item>, blocks: seq<BlockRef>)
    ensures var t := total + Tagged(blocks, true);
      && t[AnyDeviceByte] == total[AnyDeviceByte]
      && (forall b :: t[DeviceByte(b)] == total[DeviceByte(b)])
      && (forall h :: t[HostRef(h)] == total[HostRef(h)])
  {
    TaggedCounts(blocks, true, AnyDeviceByte);
    forall b ensures Tagged(blocks, true)[DeviceByte(b)] == 0 { TaggedCounts(blocks, true, DeviceByte(b)); }
    forall h ensures Tagged(blocks, true)[HostRef(h)] == 0 { TaggedCounts(blocks, true, HostRef(h)); }
  }

  // ---- Stored blocks: putting --------------------------------------------------------------

  /** What putting or dropping blocks may do to the disk: only block files change, safely. */
  ghost predicate BlockStepsOnly(r: Rules, m: Registry, a: Registry, d: Disk, ops: seq<DiskOp>) {
    && SafeRun(r, a, d, ops)
    && DescribedAfter(m, a, ops) == m
    && DiskSound(r, m, ApplyAll(d, ops))
    && forall o :: Spares(ops, ManifestFile(o))
  }

  lemma BlockStepsConcat(r: Rules, m: Registry, a: Registry, d: Disk, x: seq<DiskOp>, y: seq<DiskOp>)
    requires BlockStepsOnly(r, m, a, d, x) && BlockStepsOnly(r, m, a, ApplyAll(d, x), y)
    ensures BlockStepsOnly(r, m, a, d, x + y) && ApplyAll(d, x + y) == ApplyAll(ApplyAll(d, x), y)
  {
    RunConcat(r, m, a, d, x, y);
    forall o
      ensures Spares(x + y, ManifestFile(o))
    {
      assert Spares(x, ManifestFile(o)) && Spares(y, ManifestFile(o));
    }
  }

  lemma NothingIsBlockSteps(r: Rules, m: Registry, a: Registry, d: Disk)
    requires DiskSound(r, m, d)
    ensures BlockStepsOnly(r, m, a, d, [])
  {
  }

  lemma WriteBlockSteps(r: Rules, m: Registry, a: Registry, d: Disk, h: Digest, data: Bytes)
    requires DiskSound(r, m, d) && r.content.hash(data) == h && data in r.known && BlockFile(h) !in d
    ensures BlockStepsOnly(r, m, a, d, AtomicWrite(d, BlockFile(h), data))
    ensures ApplyAll(d, AtomicWrite(d, BlockFile(h), data)) == (d - {Temp(BlockFile(h))})[BlockFile(h) := data]
    ensures forall p :: Spares(AtomicWrite(d, BlockFile(h), data), p)
  {
    var ops := AtomicWrite(d, BlockFile(h), data);
    AtomicWriteSafe(r, a, d, BlockFile(h), data);
    SafeRunSound(r, m, a, d, ops);
    var last := [Rename(Temp(BlockFile(h)), BlockFile(h))];
    assert ops[1..][1..] == last && last[1..] == [];
    assert DescribedAfter(m, a, last) == m;
    assert DescribedAfter(m, a, ops) == DescribedAfter(m, a, ops[1..]) == DescribedAfter(m, a, last);
  }

  /** One more reference to a stored block. */
  lemma StoreCounted(refs: map<Digest, nat>, used: nat, d: Disk, total: multiset<Item>, h: Digest)
    requires StoreOk(refs, used, d, total) && h in refs
    ensures StoreOk(refs[h := refs[h] + 1], used, d, total + multiset{DiskRef(h)})
  {
    assert FileSizes(refs[h := refs[h] + 1], d) == FileSizes(refs, d);
  }

  /** The first reference to a block whose file is there. */
  lemma StoreFirst(refs: map<Digest, nat>, used: nat, d: Disk, total: multiset<Item>, h: Digest)
    requires StoreOk(refs, used, d, total) && h !in refs && BlockFile(h) in d
    ensures StoreOk(refs[h := 1], used + |d[BlockFile(h)]|, d, total + multiset{DiskRef(h)})
  {
    SumInsert(FileSizes(refs, d), h, |d[BlockFile(h)]|);
    assert FileSizes(refs[h := 1], d) == FileSizes(refs, d)[h := |d[BlockFile(h)]|];
  }

  lemma StoreUnmoved(refs: map<Digest, nat>, used: nat, d: Disk, total: multiset<Item>, h: Digest, data: Bytes)
    requires StoreOk(refs, used, d, total) && h !in refs
    ensures StoreOk(refs, used, (d - {Temp(BlockFile(h))})[BlockFile(h) := data], total)
  {
    assert FileSizes(refs, (d - {Temp(BlockFile(h))})[BlockFile(h) := data]) == FileSizes(refs, d);
  }

  lemma Shuffle(total: multiset<Item>, b: BlockRef, rest: seq<BlockRef>)
    ensures total + multiset{DiskRef(b.hash)} + Tagged(rest, true) == total + Tagged([b] + rest, true)
  {
    assert ([b] + rest)[1..] == rest;
  }

  lemma StorePutOne(r: Rules, c: Content, m: Registry, a: Registry, refs: map<Digest, nat>, used: nat, d: Disk,
                    total: multiset<Item>, h: Digest, data: Bytes)
    requires r.content == c && NoCollision(c, r.known) && c.hash(data) == h && data in r.known
    requires StoreOk(refs, used, d, total) && DiskSound(r, m, d)
    ensures var put := PutOne(refs, used, d, h, data);
      && put.ok && BlockStepsOnly(r, m, a, d, put.ops) && (forall p :: Spares(put.ops, p))
      && StoreOk(put.refs, put.used, ApplyAll(d, put.ops), total + multiset{DiskRef(h)})
  {
    NothingIsBlockSteps(r, m, a, d);
    if h in refs {
      StoreCounted(refs, used, d, total, h);
    } else if BlockFile(h) in d {
      assert d[BlockFile(h)] == data;
      StoreFirst(refs, used, d, total, h);
    } else {
      WriteBlockSteps(r, m, a, d, h, data);
      StoreUnmoved(refs, used, d, total, h, data);
      StoreFirst(refs, used, (d - {Temp(BlockFile(h))})[BlockFile(h) := data], total, h);
    }
  }

  /** Putting a payload's blocks always succeeds; counts, files and sizes stay exact; nothing is removed. */
  lemma {:induction false} StorePut(r: Rules, c: Content, m: Registry, a: Registry, refs: map<Digest, nat>, used: nat,
                                    d: Disk,
                                    total: multiset<Item>, payload: Bytes, blocks: seq<BlockRef>)
    requires r.content == c && NoCollision(c, r.known)
    requires StoreOk(refs, used, d, total) && DiskSound(r, m, d)
    requires Inside(payload, blocks) && StretchesKnown(payload, blocks, r.known) && forall b :: b in blocks ==>
      Describes(c, payload, b)
    ensures var put := PutBlocks(refs, used, d, payload, blocks);
      && put.ok && BlockStepsOnly(r, m, a, d, put.ops) && (forall p :: Spares(put.ops, p))
      && StoreOk(put.refs, put.used, ApplyAll(d, put.ops), total + Tagged(blocks, true))
    decreases |blocks|
  {
    hide StoreOk, DiskSound, PutOne, NoCollision, BlockStepsOnly;
    if blocks == [] {
      NothingIsBlockSteps(r, m, a, d);
      assert total + Tagged([], true) == total;
    } else {
      var b, rest := blocks[0], blocks[1..];
      assert blocks == [b] + rest && b in blocks && forall x :: x in rest ==> x in blocks;
      assert Describes(c, payload, b);
      Shuffle(total, b, rest);
      var one := PutOne(refs, used, d, b.hash, Stretch(payload, b));
      StorePutOne(r, c, m, a, refs, used, d, total, b.hash, Stretch(payload, b));
      StorePut(r, c, m, a, one.refs, one.used, ApplyAll(d, one.ops), total + multiset{DiskRef(b.hash)}, payload, rest);
      var p := PutBlocks(one.refs, one.used, ApplyAll(d, one.ops), payload, rest);
      BlockStepsConcat(r, m, a, d, one.ops, p.ops);
      forall q
        ensures Spares(one.ops + p.ops, q)
      {
        assert Spares(one.ops, q) && Spares(p.ops, q);
      }
    }
  }

  // ---- Stored blocks: dropping -------------------------------------------------------------

  lemma RemoveBlockSteps(r: Rules, m: Registry, a: Registry, d: Disk, h: Digest)
    requires DiskSound(r, m, d)
    ensures BlockStepsOnly(r, m, a, d, RemoveIfThere(d, BlockFile(h)))
    ensures ApplyAll(d, RemoveIfThere(d, BlockFile(h))) == d - {BlockFile(h)}
    ensures forall p :: p != BlockFile(h) ==> Spares(RemoveIfThere(d, BlockFile(h)), p)
  {
    RemoveIfThereSafe(r, a, d, BlockFile(h));
    SafeRunSound(r, m, a, d, RemoveIfThere(d, BlockFile(h)));
  }

  lemma StoreLast(refs: map<Digest, nat>, used: nat, d: Disk, total: multiset<Item>, h: Digest, len: nat)
    requires StoreOk(refs, used, d, total + multiset{DiskRef(h)}) && h in refs && refs[h] == 1
    requires len == |d[BlockFile(h)]|
    ensures StoreOk(refs - {h}, SatSub(used, len), d - {BlockFile(h)}, total) && total[DiskRef(h)] == 0
  {
    assert (total + multiset{DiskRef(h)})[DiskRef(h)] == 1;
    SumRemove(FileSizes(refs, d), h);
    assert FileSizes(refs - {h}, d - {BlockFile(h)}) == FileSizes(refs, d) - {h};
    forall g
      ensures CountIn(refs - {h}, g) == total[DiskRef(g)]
    {
      assert CountIn(refs, g) == (total + multiset{DiskRef(h)})[DiskRef(g)];
    }
  }

  lemma StoreUncounted(refs: map<Digest, nat>, used: nat, d: Disk, total: multiset<Item>, h: Digest)
    requires StoreOk(refs, used, d, total + multiset{DiskRef(h)}) && h in refs && refs[h] > 1
    ensures StoreOk(refs[h := refs[h] - 1], used, d, total)
  {
    assert FileSizes(refs[h := refs[h] - 1], d) == FileSizes(refs, d);
    forall g
      ensures CountIn(refs[h := refs[h] - 1], g) == total[DiskRef(g)]
    {
      assert CountIn(refs, g) == (total + multiset{DiskRef(h)})[DiskRef(g)];
    }
  }

  /** The lengths recorded in references are the sizes of the block files. */
  ghost predicate TrueFileSizes(refs: map<Digest, nat>, d: Disk, blocks: seq<BlockRef>) {
    forall b :: b in blocks && b.hash in refs ==> BlockFile(b.hash) in d && b.len == |d[BlockFile(b.hash)]|
  }

  lemma StoreDropOne(r: Rules, m: Registry, a: Registry, refs: map<Digest, nat>, used: nat, d: Disk,
                     total: multiset<Item>, h: Digest, len: nat)
    requires StoreOk(refs, used, d, total + multiset{DiskRef(h)}) && DiskSound(r, m, d)
    requires BlockFile(h) in d ==> len == |d[BlockFile(h)]|
    ensures var one := DropOne(refs, used, d, h, len);
      && BlockStepsOnly(r, m, a, d, one.ops) && StoreOk(one.refs, one.used, ApplyAll(d, one.ops), total)
      && one.refs.Keys <= refs.Keys
      && (forall g :: total[DiskRef(g)] >= 1 ==> Spares(one.ops, BlockFile(g)))
      && (forall g :: g in one.refs ==>
         BlockFile(g) in d && BlockFile(g) in ApplyAll(d, one.ops)
           && ApplyAll(d, one.ops)[BlockFile(g)] == d[BlockFile(g)])
  {
    assert CountIn(refs, h) == (total + multiset{DiskRef(h)})[DiskRef(h)] >= 1;
    if refs[h] > 1 {
      NothingIsBlockSteps(r, m, a, d);
      StoreUncounted(refs, used, d, total, h);
    } else {
      StoreLast(refs, used, d, total, h, len);
      RemoveBlockSteps(r, m, a, d, h);
    }
  }

  /** Dropping an entry's blocks keeps counts exact and removes only files that nobody references any more. */
  lemma {:induction false} StoreDrop(r: Rules, m: Registry, a: Registry, refs: map<Digest, nat>, used: nat, d: Disk,
                                     total: multiset<Item>, blocks: seq<BlockRef>)
    requires StoreOk(refs, used, d, total + Tagged(blocks, true)) && DiskSound(r, m, d)
    requires TrueFileSizes(refs, d, blocks)
    ensures var drop := DropBlocks(refs, used, d, blocks);
      && BlockStepsOnly(r, m, a, d, drop.ops)
      && StoreOk(drop.refs, drop.used, ApplyAll(d, drop.ops), total)
      && forall h :: total[DiskRef(h)] >= 1 ==> Spares(drop.ops, BlockFile(h))
    decreases |blocks|
  {
    hide DiskSound, BlockStepsOnly, StoreOk, TrueFileSizes;
    if blocks == [] {
      NothingIsBlockSteps(r, m, a, d);
      assert total + Tagged([], true) == total;
    } else {
      var b, rest := blocks[0], blocks[1..];
      assert blocks == [b] + rest;
      Shuffle(total, b, rest);
      var t := total + Tagged(rest, true);
      assert total + Tagged(blocks, true) == t + multiset{DiskRef(b.hash)};
      var one := DropOne(refs, used, d, b.hash, b.len);
      var d1 := ApplyAll(d, one.ops);
      FirstFileSize(refs, used, d, t, blocks);
      StoreDropOne(r, m, a, refs, used, d, t, b.hash, b.len);
      BlockStepsSound(r, m, a, d, one.ops);
      SizesSurvive(refs, d, blocks, one.refs, d1);
      StoreDrop(r, m, a, one.refs, one.used, d1, total, rest);
      var q := DropBlocks(one.refs, one.used, d1, rest);
      BlockStepsConcat(r, m, a, d, one.ops, q.ops);
      forall g | total[DiskRef(g)] >= 1
        ensures Spares(one.ops + q.ops, BlockFile(g))
      {
        assert t[DiskRef(g)] >= 1;
        assert Spares(one.ops, BlockFile(g)) && Spares(q.ops, BlockFile(g));
      }
    }
  }

  lemma FirstFileSize(refs: map<Digest, nat>, used: nat, d: Disk, t: multiset<Item>, blocks: seq<BlockRef>)
    requires blocks != [] && StoreOk(refs, used, d, t + multiset{DiskRef(blocks[0].hash)})
    requires TrueFileSizes(refs, d, blocks)
    ensures BlockFile(blocks[0].hash) in d && blocks[0].len == |d[BlockFile(blocks[0].hash)]|
  {
    var h := blocks[0].hash;
    assert CountIn(refs, h) == (t + multiset{DiskRef(h)})[DiskRef(h)] >= 1;
    assert blocks[0] in blocks;
  }

  lemma SizesSurvive(refs: map<Digest, nat>, d: Disk, blocks: seq<BlockRef>, refs': map<Digest, nat>, d': Disk)
    requires blocks != [] && TrueFileSizes(refs, d, blocks) && refs'.Keys <= refs.Keys
    requires forall g :: g in refs' ==> BlockFile(g) in d && BlockFile(g) in d' && d'[BlockFile(g)] == d[BlockFile(g)]
    ensures TrueFileSizes(refs', d', blocks[1..])
  {
    assert forall x :: x in blocks[1..] ==> x in blocks;
  }

  lemma BlockStepsSound(r: Rules, m: Registry, a: Registry, d: Disk, ops: seq<DiskOp>)
    requires BlockStepsOnly(r, m, a, d, ops)
    ensures DiskSound(r, m, ApplyAll(d, ops)) && SafeRun(r, a, d, ops) && DescribedAfter(m, a, ops) == m
    ensures forall o :: Spares(ops, ManifestFile(o))
  {
  }
}

/**
 * Exactly which object a reopening admits under an identity, and exactly which crashes leave a manifest of an object
 * that is not registered any more.
 */
module CacheStaleness {
  import opened Prelude
  import opened Storage
  import opened BlockArena
  import opened CacheSpec
  import opened DiskSafety
  import opened CacheInvariant
  import opened CacheKept
  import opened CacheRecovery
  import opened CacheRuns
  import opened CacheCrashes
  import opened CacheManifests

  /** The file-system steps taken before the crash. */
  ghost function Cut(cfg: Config, w: World, ev: Event): seq<DiskOp>
    requires ev.CrashIn? && ev.k <= |Step(cfg, w.s, ev.op, ev.now).ops|
  {
    Step(cfg, w.s, ev.op, ev.now).ops[..ev.k]
  }

  /** One of the steps puts the manifest of the object in place. */
  predicate Written(ops: seq<DiskOp>, oid: Digest) {
    exists i :: 0 <= i < |ops| && WritesManifest(ops[i]) && ops[i].to.oid == oid
  }

  // ---- What the manifests describe at the cut ----------------------------------------------

  lemma {:induction false} LastWriteDescribes(m: Registry, a: Registry, ops: seq<DiskOp>, oid: Digest)
    requires ops != [] && WritesManifest(ops[|ops| - 1]) && ops[|ops| - 1].to.oid == oid && oid in a
    ensures oid in DescribedAfter(m, a, ops) && DescribedAfter(m, a, ops)[oid] == a[oid]
    decreases |ops|
  {
    if |ops| == 1 {
      assert ops[1..] == [];
    } else {
      LastWriteDescribes(Described(m, a, ops[0]), a, ops[1..], oid);
    }
  }

  lemma {:induction false} WrittenIsRegistered(r: Rules, a: Registry, d: Disk, ops: seq<DiskOp>, i: nat)
    requires SafeRun(r, a, d, ops) && i < |ops| && WritesManifest(ops[i])
    ensures ops[i].to.oid in a
    decreases i
  {
    if i > 0 {
      WrittenIsRegistered(r, a, Apply(d, ops[0]), ops[1..], i - 1);
    }
  }

  /** A manifest written before the crash describes the registered object. */
  lemma WrittenDescribes(cfg: Config, r: Rules, w: World, ev: Event, oid: Digest)
    requires Serves(cfg, r) && WorldOk(r, w) && ev.CrashIn? && EventOk(cfg, r, w, ev) && Written(Cut(cfg, w, ev), oid)
    ensures oid in w.a && oid in Next(cfg, r, w, ev).m && Next(cfg, r, w, ev).m[oid] == w.a[oid]
  {
    hide Serves, StateOk, Step, OpOk, Open, SameButTemps, Lists, SafeRun, SparesPersisted;
    var ops := Step(cfg, w.s, ev.op, ev.now).ops;
    StepRefines(cfg, r, w.a, w.m, w.s, ev.op, ev.now);
    StepWrites(cfg, w.s, ev.op, ev.now);
    var i :| 0 <= i < ev.k && WritesManifest(ops[..ev.k][i]) && ops[..ev.k][i].to.oid == oid;
    assert i == |ops| - 1 && ops[..ev.k] == ops;
    WrittenIsRegistered(r, w.a, w.s.disk, ops, i);
    LastWriteDescribes(w.m, w.a, ops, oid);
  }

  lemma {:induction false} SparedIsDescribed(m: Registry, a: Registry, ops: seq<DiskOp>, o: Digest)
    requires o in m && Spares(ops, ManifestFile(o))
    ensures o in DescribedAfter(m, a, ops)
    decreases |ops|
  {
    if ops != [] {
      assert ops[0] != Remove(ManifestFile(o));
      SparedIsDescribed(Described(m, a, ops[0]), a, ops[1..], o);
    }
  }

  lemma {:induction false} RemovedIsUndescribed(m: Registry, a: Registry, ops: seq<DiskOp>, o: Digest)
    requires !Written(ops, o) && (o !in m || !Spares(ops, ManifestFile(o)))
    ensures o !in DescribedAfter(m, a, ops)
    decreases |ops|
  {
    if ops != [] {
      assert !(WritesManifest(ops[0]) && ops[0].to.oid == o);
      assert !Written(ops[1..], o) by {
        assert forall i :: 0 <= i < |ops[1..]| ==> ops[1..][i] == ops[i + 1];
      }
      if ops[0] != Remove(ManifestFile(o)) && !Spares(ops, ManifestFile(o)) {
        var i :| 0 <= i < |ops| && ops[i] == Remove(ManifestFile(o));
        assert ops[1..][i - 1] == ops[i];
      }
      RemovedIsUndescribed(Described(m, a, ops[0]), a, ops[1..], o);
    }
  }

  /** The crash leaves a manifest of the object: it was written, or it was there and not removed. */
  ghost predicate Leaves(w: World, cut: seq<DiskOp>, oid: Digest) {
    Written(cut, oid) || (oid in w.m && Spares(cut, ManifestFile(oid)))
  }

  lemma DescribedIffLeft(cfg: Config, r: Rules, w: World, ev: Event, oid: Digest)
    requires Serves(cfg, r) && WorldOk(r, w) && ev.CrashIn? && EventOk(cfg, r, w, ev)
    ensures oid in Next(cfg, r, w, ev).m <==> Leaves(w, Cut(cfg, w, ev), oid)
  {
    hide Serves, WorldOk, Step, OpOk, Open, SameButTemps, Lists, Written, Spares;
    var cut := Cut(cfg, w, ev);
    if Written(cut, oid) {
      WrittenDescribes(cfg, r, w, ev, oid);
    } else if Leaves(w, cut, oid) {
      SparedIsDescribed(w.m, w.a, cut, oid);
    } else {
      RemovedIsUndescribed(w.m, w.a, cut, oid);
    }
  }

  // ---- What is admitted --------------------------------------------------------------------

  /**
   * What a reopening admits under an identity is the object registered there, if and only if no stale manifest was left
   * or the interrupted operation had already put the new manifest in place.
   */
  lemma AdmittedIsCurrentIff(cfg: Config, r: Rules, w: World, ev: Event, oid: Digest)
    requires Serves(cfg, r) && WorldOk(r, w) && ev.CrashIn? && EventOk(cfg, r, w, ev) && oid in Next(cfg, r, w, ev).a
    ensures (oid in w.a && Next(cfg, r, w, ev).a[oid] == w.a[oid]) <==>
      !Stale(w, oid) || Written(Cut(cfg, w, ev), oid)
  {
    hide Serves, WorldOk, Step, OpOk, Open, SameButTemps, Lists, Admitted;
    var cut := Cut(cfg, w, ev);
    if Written(cut, oid) {
      WrittenDescribes(cfg, r, w, ev, oid);
    } else {
      UnwrittenDescribed(w.m, w.a, cut, oid);
    }
  }

  // ---- Which crashes leave a stale manifest ------------------------------------------------

  /** The object whose manifest the crash leaves. */
  ghost function Left(w: World, cut: seq<DiskOp>, oid: Digest): Object
    requires Leaves(w, cut, oid) && (Written(cut, oid) ==> oid in w.a)
  {
    if Written(cut, oid) then w.a[oid] else w.m[oid]
  }

  /**
   * From any world, a crash leaves a stale manifest under an identity if and only if it leaves a manifest of an object
   * whose layout does not suit its shape or one of whose block files is missing at the crash point.
   */
  lemma StaleAfterCrashIff(cfg: Config, r: Rules, w: World, ev: Event, oid: Digest)
    requires Serves(cfg, r) && WorldOk(r, w) && cfg.hasStore && ev.CrashIn? && EventOk(cfg, r, w, ev)
    ensures var cut := Cut(cfg, w, ev);
      && (Written(cut, oid) ==> oid in w.a)
      && (Stale(Next(cfg, r, w, ev), oid) <==>
          && Leaves(w, cut, oid)
          && (|| !r.readable(Left(w, cut, oid))
              || !BlocksExist(ApplyAll(w.s.disk, cut), r.blocks(Left(w, cut, oid)))))
  {
    hide Serves, StateOk, Step, OpOk, Open, SafeRun, ApplyAll, BlocksExist, SameButTemps, Clean, DescribedAfter;
    hide Written, Leaves, DiskSound;
    var cut, w' := Cut(cfg, w, ev), Next(cfg, r, w, ev);
    var d := ApplyAll(w.s.disk, cut);
    DescribedIffLeft(cfg, r, w, ev, oid);
    if Written(cut, oid) {
      WrittenDescribes(cfg, r, w, ev, oid);
    }
    if oid in w'.m {
      LeftIsDescribed(cfg, r, w, ev, oid);
      CrashSound(cfg, r, w, ev);
      ManifestThere(r, w'.m, d, oid);
      ImageHas(d, ev.image, ManifestFile(oid));
      SameBlocks(d, ev.image, r.blocks(w'.m[oid]));
    }
  }

  lemma LeftIsDescribed(cfg: Config, r: Rules, w: World, ev: Event, oid: Digest)
    requires Serves(cfg, r) && WorldOk(r, w) && ev.CrashIn? && EventOk(cfg, r, w, ev) && Leaves(w, Cut(cfg, w, ev), oid)
    requires oid in Next(cfg, r, w, ev).m && (Written(Cut(cfg, w, ev), oid) ==> oid in w.a)
    ensures Next(cfg, r, w, ev).m[oid] == Left(w, Cut(cfg, w, ev), oid)
  {
    hide Serves, WorldOk, Step, OpOk, Open, SameButTemps, Lists;
    if Written(Cut(cfg, w, ev), oid) {
      WrittenDescribes(cfg, r, w, ev, oid);
    } else {
      UnwrittenDescribed(w.m, w.a, Cut(cfg, w, ev), oid);
    }
  }

  lemma SameBlocks(d: Disk, image: Disk, blocks: seq<BlockRef>)
    requires SameButTemps(d, image)
    ensures BlocksExist(d, blocks) <==> BlocksExist(Clean(image), blocks)
  {
    assert forall h :: BlockFile(h) in d <==> BlockFile(h) in Clean(image);
  }

  predicate OnlyRemoves(ops: seq<DiskOp>) {
    forall i :: 0 <= i < |ops| ==> ops[i].Remove?
  }

  lemma {:induction false} DropsOnlyRemove(refs: map<Digest, nat>, used: nat, d: Disk, blocks: seq<BlockRef>)
    ensures OnlyRemoves(DropBlocks(refs, used, d, blocks).ops)
    decreases |blocks|
  {
    if blocks != [] {
      var one := DropOne(refs, used, d, blocks[0].hash, blocks[0].len);
      assert OnlyRemoves(one.ops);
      DropsOnlyRemove(one.refs, one.used, ApplyAll(d, one.ops), blocks[1..]);
    }
  }

  lemma PlacementOnlyRemoves(cfg: Config, s: State, oid: Digest, t: Tier)
    ensures OnlyRemoves(RemovePlacement(cfg, s, oid, t).ops)
  {
    hide ReleaseAll, DropBlocks, ApplyAll, IndexOf, Without;
    if oid in s.entries && HasTier(s.entries[oid], t) {
      DropsOnlyRemove(s.diskRefs, s.storageUsed, if cfg.hasStore then s.disk else map[], s.entries[oid].blocks);
    }
  }

  lemma {:induction false} TiersOnlyRemove(cfg: Config, s: State, oid: Digest, tiers: seq<Tier>, strict: bool)
    ensures OnlyRemoves(RemoveTiers(cfg, s, oid, tiers, strict).ops)
    decreases |tiers|
  {
    hide RemovePlacement;
    if tiers != [] {
      PlacementOnlyRemoves(cfg, s, oid, tiers[0]);
      TiersOnlyRemove(cfg, RemovePlacement(cfg, s, oid, tiers[0]).state, oid, tiers[1..], strict);
    }
  }

  /** A deletion takes no other file-system step than removing files. */
  lemma DeletionOnlyRemoves(cfg: Config, s: State, oid: Digest)
    ensures OnlyRemoves(Delete(cfg, s, oid).ops)
  {
    hide RemoveTiers, ApplyAll;
    if oid in s.entries {
      TiersOnlyRemove(cfg, s, oid, Tiers(s.entries[oid].placements), true);
    }
  }

  lemma {:induction false} RemovedIsGone(d: Disk, ops: seq<DiskOp>, p: Path)
    requires OnlyRemoves(ops) && (p !in d || !Spares(ops, p))
    ensures p !in ApplyAll(d, ops)
    decreases |ops|
  {
    if ops != [] {
      if ops[0] != Remove(p) && !Spares(ops, p) {
        var i :| 0 <= i < |ops| && ops[i] == Remove(p);
        assert ops[1..][i - 1] == ops[i];
      }
      RemovedIsGone(Apply(d, ops[0]), ops[1..], p);
    }
  }

  /** The crash fell into the deletion of the object, after one of its block files had been removed. */
  ghost predicate CutsDeletion(r: Rules, w: World, ev: Event, cut: seq<DiskOp>, oid: Digest) {
    && ev.op == DoDelete(oid) && oid in w.a
    && exists b :: b in r.blocks(w.a[oid]) && !Spares(cut, BlockFile(b.hash))
  }

  lemma DeletionCut(cfg: Config, w: World, ev: Event, oid: Digest)
    requires ev.CrashIn? && ev.op == DoDelete(oid) && ev.k <= |Step(cfg, w.s, ev.op, ev.now).ops|
    ensures OnlyRemoves(Cut(cfg, w, ev))
  {
    hide Delete;
    DeletionOnlyRemoves(cfg, w.s, oid);
  }

  /** A block file that the deletion had removed is missing at the crash point. */
  lemma CutMissesBlock(cfg: Config, r: Rules, w: World, ev: Event, oid: Digest)
    requires ev.CrashIn? && EventOk(cfg, r, w, ev) && CutsDeletion(r, w, ev, Cut(cfg, w, ev), oid)
    ensures !BlocksExist(ApplyAll(w.s.disk, Cut(cfg, w, ev)), r.blocks(w.a[oid]))
  {
    hide Step, OpOk, Spares, ApplyAll, SameButTemps, Lists;
    var b :| b in r.blocks(w.a[oid]) && !Spares(Cut(cfg, w, ev), BlockFile(b.hash));
    DeletionCut(cfg, w, ev, oid);
    RemovedIsGone(w.s.disk, Cut(cfg, w, ev), BlockFile(b.hash));
  }

  /** A block file of an object on disk that is missing at the crash point had been removed. */
  lemma MissingBlockWasCut(cfg: Config, r: Rules, w: World, ev: Event, oid: Digest)
    requires Serves(cfg, r) && WorldOk(r, w) && Tracked(w.m, w.s.entries) && ev.CrashIn? && EventOk(cfg, r, w, ev)
    requires ev.op == DoDelete(oid) && oid in w.m && oid in w.a
    requires !BlocksExist(ApplyAll(w.s.disk, Cut(cfg, w, ev)), r.blocks(w.a[oid]))
    ensures CutsDeletion(r, w, ev, Cut(cfg, w, ev), oid)
  {
    hide Serves, StateOk, Step, OpOk, Open, SafeRun, Spares, ApplyAll, SameButTemps, Clean, DescribedAfter;
    CrashSound(cfg, r, w, ev);
    PersistedFacts(r, w.a, w.m, w.s, oid);
    var cut := Cut(cfg, w, ev);
    var b :| b in r.blocks(w.a[oid]) && BlockFile(b.hash) !in ApplyAll(w.s.disk, cut);
    if Spares(cut, BlockFile(b.hash)) {
      SparedStays(r, w.a, w.s.disk, cut, BlockFile(b.hash));
    }
  }

  /**
   * From a world in which every manifest belongs to an entry on disk, a crash leaves a stale manifest of an object if
   * and only if it leaves a manifest of it, and the layout does not suit the shape or the crash fell into the deletion
   * of the object after one of its block files was gone.
   */
  lemma GoesStaleIff(cfg: Config, r: Rules, w: World, ev: Event, oid: Digest)
    requires Serves(cfg, r) && WorldOk(r, w) && Tracked(w.m, w.s.entries) && cfg.hasStore && ev.CrashIn?
    requires EventOk(cfg, r, w, ev)
    ensures var cut := Cut(cfg, w, ev);
      Stale(Next(cfg, r, w, ev), oid) <==>
        && oid in w.a && Leaves(w, cut, oid)
        && (!r.readable(w.a[oid]) || CutsDeletion(r, w, ev, cut, oid))
  {
    hide Serves, WorldOk, EventOk, Next, Tracked, CutsDeletion, Written, Cut, Spares, BlocksExist;
    var cut := Cut(cfg, w, ev) by { CutInRange(cfg, r, w, ev); }
    StaleAfterCrashIff(cfg, r, w, ev, oid);
    TrackedIsFresh(r, w, oid);
    if Leaves(w, cut, oid) {
      assert Left(w, cut, oid) == w.a[oid];
      if CutsDeletion(r, w, ev, cut, oid) {
        CutMissesBlock(cfg, r, w, ev, oid);
      } else if Stale(Next(cfg, r, w, ev), oid) && r.readable(w.a[oid]) {
        StaleIsNotAdmitted(cfg, r, w, ev, oid);
        WhatLeavesStale(cfg, r, w, ev, oid);
        DeletedWasDescribed(cfg, r, w, ev, oid);
        MissingBlockWasCut(cfg, r, w, ev, oid);
      }
    }
  }

  lemma CutInRange(cfg: Config, r: Rules, w: World, ev: Event)
    requires ev.CrashIn? && EventOk(cfg, r, w, ev)
    ensures ev.k <= |Step(cfg, w.s, ev.op, ev.now).ops|
  {
  }

  lemma StaleIsNotAdmitted(cfg: Config, r: Rules, w: World, ev: Event, oid: Digest)
    requires ev.CrashIn? && EventOk(cfg, r, w, ev) && Stale(Next(cfg, r, w, ev), oid)
    ensures oid !in Next(cfg, r, w, ev).a
  {
    hide Step, OpOk, Open, SameButTemps, Lists, DescribedAfter;
  }

  lemma DeletedWasDescribed(cfg: Config, r: Rules, w: World, ev: Event, oid: Digest)
    requires ev.CrashIn? && EventOk(cfg, r, w, ev) && ev.op == DoDelete(oid) && oid in Next(cfg, r, w, ev).m
    ensures oid in w.m
  {
    hide Step, OpOk, Open, SameButTemps, Lists;
    StepWrites(cfg, w.s, ev.op, ev.now);
    UnwrittenDescribed(w.m, w.a, Step(cfg, w.s, ev.op, ev.now).ops[..ev.k], oid);
  }
}

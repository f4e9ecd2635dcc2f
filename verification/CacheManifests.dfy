/**
 * Which objects the manifest files describe, over whole runs: only persisting an object writes its manifest, so a
 * deleted object stays deleted; and as long as every manifest belongs to an entry on disk, a reopened cache holds the
 * objects the cache held before.
 */
module CacheManifests {
  import opened Prelude
  import opened Storage
  import opened BlockArena
  import opened Compat
  import opened CacheSpec
  import opened DiskSafety
  import opened CacheInvariant
  import opened CacheKept
  import opened CacheOperations
  import opened CacheRecovery
  import opened CacheRuns
  import opened CacheCrashes
  import opened CacheAccounting
  import P = Planner

  // ---- Which steps write manifests ---------------------------------------------------------

  predicate WritesManifest(op: DiskOp) {
    op.Rename? && op.to.ManifestFile?
  }

  predicate NoManifest(ops: seq<DiskOp>) {
    forall i :: 0 <= i < |ops| ==> !WritesManifest(ops[i])
  }

  /** A manifest is written by the last step only, and only one of `who`. */
  predicate WritesLast(ops: seq<DiskOp>, who: set<Digest>) {
    forall i :: 0 <= i < |ops| && WritesManifest(ops[i]) ==> i == |ops| - 1 && ops[i].to.oid in who
  }

  lemma {:induction false} PutsQuietly(refs: map<Digest, nat>, used: nat, d: Disk, payload: Bytes,
                                       blocks: seq<BlockRef>)
    requires Inside(payload, blocks)
    ensures NoManifest(PutBlocks(refs, used, d, payload, blocks).ops)
    decreases |blocks|
  {
    if blocks != [] {
      var one := PutOne(refs, used, d, blocks[0].hash, Stretch(payload, blocks[0]));
      assert NoManifest(one.ops);
      if one.ok {
        PutsQuietly(one.refs, one.used, ApplyAll(d, one.ops), payload, blocks[1..]);
      }
    }
  }

  lemma {:induction false} DropsQuietly(refs: map<Digest, nat>, used: nat, d: Disk, blocks: seq<BlockRef>)
    ensures NoManifest(DropBlocks(refs, used, d, blocks).ops)
    decreases |blocks|
  {
    if blocks != [] {
      var one := DropOne(refs, used, d, blocks[0].hash, blocks[0].len);
      assert NoManifest(one.ops);
      DropsQuietly(one.refs, one.used, ApplyAll(d, one.ops), blocks[1..]);
    }
  }

  lemma AddWrites(cfg: Config, s: State, oid: Digest, t: Tier, bytes: Bytes)
    ensures WritesLast(AddPlacement(cfg, s, oid, t, bytes).ops, if t == P.Persistent then {oid} else {})
  {
    hide PutBlocks, Chunk, Accepts, Charged, AddHost, ApplyAll;
    if oid in s.entries && |bytes| == s.entries[oid].byteLen {
      match t
      case Host => AddHostTouchesNoFile(cfg, s, oid, bytes);
      case Accelerator(_) =>
      case Persistent => AddDiskWrites(cfg, s, oid, bytes);
    }
  }

  lemma AddHostTouchesNoFile(cfg: Config, s: State, oid: Digest, bytes: Bytes)
    requires oid in s.entries && |bytes| < TWO_64
    ensures AddHost(cfg, s, oid, bytes).ops == []
  {
    hide Chunk, Accepts, Charged, StoreBlocks;
  }

  lemma AddDiskWrites(cfg: Config, s: State, oid: Digest, bytes: Bytes)
    requires oid in s.entries && |bytes| < TWO_64
    ensures WritesLast(AddDisk(cfg, s, oid, bytes).ops, {oid})
  {
    hide PutBlocks, Chunk, Accepts, Charged, ApplyAll, MetaOf;
    if Chunk(cfg.content, bytes, cfg.blockSize).Ok? {
      ChunkInRange(cfg.content, bytes, cfg.blockSize);
      PutsQuietly(s.diskRefs, s.storageUsed, s.disk, bytes, Chunk(cfg.content, bytes, cfg.blockSize).value);
    }
  }

  lemma RemoveWrites(cfg: Config, s: State, oid: Digest, t: Tier)
    ensures NoManifest(RemovePlacement(cfg, s, oid, t).ops)
    ensures (t != P.Persistent ==> RemovePlacement(cfg, s, oid, t).ops == [])
  {
    hide ReleaseAll, DropBlocks, ApplyAll, IndexOf, Without;
    if oid in s.entries && HasTier(s.entries[oid], t) {
      DropsQuietly(s.diskRefs, s.storageUsed, if cfg.hasStore then s.disk else map[], s.entries[oid].blocks);
    }
  }

  lemma {:induction false} RemoveTiersWrites(cfg: Config, s: State, oid: Digest, tiers: seq<Tier>, strict: bool)
    ensures NoManifest(RemoveTiers(cfg, s, oid, tiers, strict).ops)
    decreases |tiers|
  {
    hide RemovePlacement;
    if tiers != [] {
      RemoveWrites(cfg, s, oid, tiers[0]);
      RemoveTiersWrites(cfg, RemovePlacement(cfg, s, oid, tiers[0]).state, oid, tiers[1..], strict);
    }
  }

  /** The object whose manifest an operation may write. */
  function Persisting(op: Op): set<Digest> {
    match op
    case DoRestore(oid, t) => if t == P.Persistent then {oid} else {}
    case DoPromote(oid, t) => if t == P.Persistent then {oid} else {}
    case DoDemote(oid, from) => if from == P.Host then {oid} else {}
    case DoPersist(oid) => {oid}
    case _ => {}
  }

  lemma EnsureWrites(cfg: Config, s: State, oid: Digest, t: Tier)
    ensures WritesLast(Ensure(cfg, s, oid, t).ops, if t == P.Persistent then {oid} else {})
  {
    hide Materialize, AddPlacement, HasTier, WritesLast;
    if oid in s.entries && Materialize(cfg, s, oid).Ok? {
      AddWrites(cfg, s, oid, t, Materialize(cfg, s, oid).value);
    }
    NothingWritten(if t == P.Persistent then {oid} else {});
  }

  lemma NothingWritten(who: set<Digest>)
    ensures WritesLast([], who)
  {
  }

  lemma RestoreWrites(cfg: Config, s: State, oid: Digest, t: Tier, now: u64)
    ensures WritesLast(Restore(cfg, s, oid, t, now).ops, if t == P.Persistent then {oid} else {})
  {
    hide Materialize, AddPlacement, HasTier, EnforceCapacity, WritesLast;
    if oid in s.entries && Materialize(cfg, s, oid).Ok? {
      AddWrites(cfg, s, oid, t, Materialize(cfg, s, oid).value);
    }
    NothingWritten(if t == P.Persistent then {oid} else {});
  }

  lemma DemoteWrites(cfg: Config, s: State, oid: Digest, from: Tier)
    ensures WritesLast(Demote(cfg, s, oid, from).ops, if from == P.Host then {oid} else {})
  {
    hide Ensure, RemovePlacement, HasTier, WritesLast;
    NothingWritten(if from == P.Host then {oid} else {});
    if NextLower(from).Ok? {
      var x := Ensure(cfg, s, oid, NextLower(from).value);
      EnsureWrites(cfg, s, oid, NextLower(from).value);
      RemoveWrites(cfg, x.state, oid, from);
      assert x.ops + [] == x.ops;
    }
  }

  lemma DeleteWrites(cfg: Config, s: State, oid: Digest)
    ensures NoManifest(Delete(cfg, s, oid).ops)
  {
    hide RemoveTiers, ApplyAll;
    if oid in s.entries {
      RemoveTiersWrites(cfg, s, oid, Tiers(s.entries[oid].placements), true);
    }
  }

  /** Only an operation that persists an object writes its manifest, and it does so with its last file-system step. */
  lemma StepWrites(cfg: Config, s: State, op: Op, now: u64)
    ensures WritesLast(Step(cfg, s, op, now).ops, Persisting(op))
  {
    hide Register, Restore, Demote, Ensure, Evict, Delete;
    match op
    case DoRegister(address, k, payload) => RegisterTouchesNoFile(cfg, s, address, k, payload, now);
    case DoLookup(_, _) =>
    case DoRestore(oid, t) => RestoreWrites(cfg, s, oid, t, now);
    case DoPromote(oid, t) => RestoreWrites(cfg, s, oid, t, now);
    case DoDemote(oid, t) => DemoteWrites(cfg, s, oid, t);
    case DoPersist(oid) => EnsureWrites(cfg, s, oid, P.Persistent);
    case DoEvict(oid) => EvictWrites(cfg, s, oid);
    case DoDelete(oid) => DeleteWrites(cfg, s, oid);
  }

  lemma EvictWrites(cfg: Config, s: State, oid: Digest)
    ensures NoManifest(Evict(cfg, s, oid).ops)
  {
    hide RemoveTiers;
    if oid in s.entries {
      RemoveTiersWrites(cfg, s, oid, Volatile(Tiers(s.entries[oid].placements)), true);
    }
  }

  /** A manifest that was not written is one that was there before, unchanged. */
  lemma {:induction false} UnwrittenDescribed(m: Registry, a: Registry, ops: seq<DiskOp>, o: Digest)
    requires o in DescribedAfter(m, a, ops) && forall i :: 0 <= i < |ops| && WritesManifest(ops[i]) ==>
      ops[i].to.oid != o
    ensures o in m && DescribedAfter(m, a, ops)[o] == m[o]
    decreases |ops|
  {
    if ops != [] {
      UnwrittenDescribed(Described(m, a, ops[0]), a, ops[1..], o);
    }
  }

  // ---- A deleted object stays deleted ------------------------------------------------------

  /** After a deletion that succeeded no manifest describes the object. */
  lemma DeletionForgets(cfg: Config, r: Rules, a: Registry, m: Registry, s: State, oid: Digest)
    requires Serves(cfg, r) && StateOk(r, a, m, s) && Delete(cfg, s, oid).result.Ok? && cfg.hasStore
    ensures oid !in DescribedAfter(m, a, Delete(cfg, s, oid).ops)
  {
    hide Serves, StateOk, RemoveTiers, Delete, SafeRun, SparesPersisted;
    KeptDelete(cfg, r, a, m, s, oid);
    var x := Delete(cfg, s, oid);
    ManifestGone(cfg, s, oid);
    NotDescribed(r, a - {oid}, DescribedAfter(m, a, x.ops), x.state, oid);
  }

  lemma ManifestGone(cfg: Config, s: State, oid: Digest)
    requires Delete(cfg, s, oid).result.Ok? && cfg.hasStore
    ensures ManifestFile(oid) !in Delete(cfg, s, oid).state.disk
  {
    hide RemoveTiers;
    var d := RemoveTiers(cfg, s, oid, Tiers(s.entries[oid].placements), true).state.disk;
    if ManifestFile(oid) in d {
      assert [Remove(ManifestFile(oid))][1..] == [];
      assert ApplyAll(d, [Remove(ManifestFile(oid))]) == d - {ManifestFile(oid)};
    }
  }

  lemma NotDescribed(r: Rules, a: Registry, m: Registry, s: State, oid: Digest)
    requires StateOk(r, a, m, s) && ManifestFile(oid) !in s.disk
    ensures oid !in m
  {
    hide EntriesOk, HostOk, StoreOk, DeviceOk, Linked;
  }

  /** Nothing in the run persists the object. */
  predicate NeverPersists(evs: seq<Event>, oid: Digest) {
    forall i :: 0 <= i < |evs| ==> oid !in Persisting(evs[i].op)
  }

  lemma UndescribedNext(cfg: Config, r: Rules, w: World, ev: Event, oid: Digest)
    requires EventOk(cfg, r, w, ev) && oid !in w.m && oid !in Persisting(ev.op)
    ensures oid !in Next(cfg, r, w, ev).m && (ev.CrashIn? ==> oid !in Next(cfg, r, w, ev).a)
  {
    hide Step, Open, OpOk, SameButTemps, Lists;
    var ops := Step(cfg, w.s, ev.op, ev.now).ops;
    StepWrites(cfg, w.s, ev.op, ev.now);
    var cut := if ev.Run? then ops else ops[..ev.k];
    if oid in DescribedAfter(w.m, w.a, cut) {
      UnwrittenDescribed(w.m, w.a, cut, oid);
    }
  }

  lemma {:induction false} UndescribedRun(cfg: Config, r: Rules, w: World, evs: seq<Event>, oid: Digest)
    requires RunOk(cfg, r, w, evs) && oid !in w.m && NeverPersists(evs, oid)
    ensures oid !in After(cfg, r, w, evs).m
    decreases |evs|
  {
    hide EventOk, Next, Persisting;
    if evs != [] {
      UndescribedNext(cfg, r, w, evs[0], oid);
      assert forall i :: 0 <= i < |evs[1..]| ==> evs[1..][i] == evs[i + 1];
      UndescribedRun(cfg, r, Next(cfg, r, w, evs[0]), evs[1..], oid);
    }
  }

  // ---- Every manifest belongs to an entry on disk ------------------------------------------

  ghost predicate Tracked(m: Registry, entries: map<Digest, Entry>) {
    forall o :: o in m ==> o in entries && OnDisk in entries[o].placements
  }

  /** Steps that touch no file and give up no storage placement. */
  lemma TrackedOffDisk(m: Registry, entries: map<Digest, Entry>, after: map<Digest, Entry>)
    requires Tracked(m, entries) && StillPersisted(entries, after, {})
    ensures Tracked(m, after)
  {
  }

  lemma TrackedAdd(cfg: Config, r: Rules, a: Registry, m: Registry, s: State, oid: Digest, t: Tier)
    requires Serves(cfg, r) && StateOk(r, a, m, s) && oid in s.entries && oid in a && !HasTier(s.entries[oid], t)
    requires Tracked(m, s.entries)
    ensures var x := AddPlacement(cfg, s, oid, t, a[oid].payload); Tracked(DescribedAfter(m, a, x.ops), x.state.entries)
  {
    hide Serves, StateOk, AddPlacement, HasTier, WritesManifest;
    KeptAddPlacement(cfg, r, a, m, s, oid, t);
    AddWrites(cfg, s, oid, t, a[oid].payload);
    var x := AddPlacement(cfg, s, oid, t, a[oid].payload);
    if x.result.Ok? {
      var p :| TierOf(p) == t && x.state.entries == Push(s, oid, p).entries;
      TrackedPush(m, a, s, oid, p, x.ops);
    }
  }

  lemma TrackedPush(m: Registry, a: Registry, s: State, oid: Digest, p: Placement, ops: seq<DiskOp>)
    requires Tracked(m, s.entries) && oid in s.entries
    requires WritesLast(ops, if TierOf(p) == P.Persistent then {oid} else {})
    ensures Tracked(DescribedAfter(m, a, ops), Push(s, oid, p).entries)
  {
    hide DescribedAfter;
    var after := Push(s, oid, p).entries;
    var ps := s.entries[oid].placements;
    assert forall q :: q in ps + [p] <==> q in ps || q == p;
    forall o | o in DescribedAfter(m, a, ops)
      ensures o in after && OnDisk in after[o].placements
    {
      if o !in (if TierOf(p) == P.Persistent then {oid} else {}) {
        UnwrittenDescribed(m, a, ops, o);
      }
    }
  }

  lemma TrackedEnsure(cfg: Config, r: Rules, a: Registry, m: Registry, s: State, oid: Digest, t: Tier)
    requires Serves(cfg, r) && StateOk(r, a, m, s) && Tracked(m, s.entries)
    ensures var x := Ensure(cfg, s, oid, t); Tracked(DescribedAfter(m, a, x.ops), x.state.entries)
  {
    hide Serves, StateOk, AddPlacement, HasTier, Materialize, Tracked;
    EntryKeys(r, a, m, s);
    if oid in s.entries && !HasTier(s.entries[oid], t) {
      MaterializeYieldsPayload(cfg, r, a, m, s, oid);
      TrackedAdd(cfg, r, a, m, s, oid, t);
    }
  }

  lemma TrackedRestore(cfg: Config, r: Rules, a: Registry, m: Registry, s: State, oid: Digest, t: Tier, now: u64)
    requires Serves(cfg, r) && StateOk(r, a, m, s) && Tracked(m, s.entries)
    ensures var x := Restore(cfg, s, oid, t, now); Tracked(DescribedAfter(m, a, x.ops), x.state.entries)
  {
    hide Serves, StateOk, AddPlacement, HasTier, Materialize, Tracked, EnforceCapacity;
    EntryKeys(r, a, m, s);
    EnforceCapacityIsIdle(cfg, r, a, m, s, now);
    if oid in s.entries && !HasTier(s.entries[oid], t) {
      MaterializeYieldsPayload(cfg, r, a, m, s, oid);
      TrackedAdd(cfg, r, a, m, s, oid, t);
      KeptAddPlacement(cfg, r, a, m, s, oid, t);
      var x := AddPlacement(cfg, s, oid, t, a[oid].payload);
      KeptState(r, a, m, s, x.state, x.ops, {});
      EnforceCapacityIsIdle(cfg, r, a, DescribedAfter(m, a, x.ops), x.state, now);
    }
  }

  lemma TrackedRemove(cfg: Config, r: Rules, a: Registry, m: Registry, s: State, oid: Digest, t: Tier)
    requires Serves(cfg, r) && StateOk(r, a, m, s) && Tracked(m, s.entries)
    ensures var x := RemovePlacement(cfg, s, oid, t); Tracked(DescribedAfter(m, a, x.ops), x.state.entries)
  {
    hide Serves, StateOk, RemovePlacement, HasTier, WritesManifest;
    var x := RemovePlacement(cfg, s, oid, t);
    KeptRemovePlacement(cfg, r, a, m, s, oid, t);
    KeptState(r, a, m, s, x.state, x.ops, if t == P.Persistent then {oid} else {});
    RemoveWrites(cfg, s, oid, t);
    RemovePlacementShape(cfg, s, oid, t);
    if t == P.Persistent {
      EntryKeys(r, a, m, s);
      if oid in s.entries && HasTier(s.entries[oid], t) {
        EntryFactsStore(cfg, r, a, m, s, oid);
        RemovedManifest(cfg, s, oid);
        NotDescribed(r, a, DescribedAfter(m, a, x.ops), x.state, oid);
      } else {
        RemoveRefused(cfg, s, oid, t);
      }
      forall o | o in DescribedAfter(m, a, x.ops)
        ensures o in x.state.entries && OnDisk in x.state.entries[o].placements
      {
        UnwrittenDescribed(m, a, x.ops, o);
      }
    } else {
      TrackedOffDisk(m, s.entries, x.state.entries);
    }
  }

  lemma EntryFactsStore(cfg: Config, r: Rules, a: Registry, m: Registry, s: State, oid: Digest)
    requires Serves(cfg, r) && StateOk(r, a, m, s) && oid in s.entries && HasTier(s.entries[oid], P.Persistent)
    ensures cfg.hasStore
  {
    hide Serves, StateOk, Usable, DistinctTiers;
    EntryFacts(cfg, r, a, m, s, oid);
    var i := IndexOf(s.entries[oid].placements, P.Persistent);
    assert PlacementOk(r.hasStore, s.backends.Keys, a[oid], s.entries[oid].blocks, s.entries[oid].placements[i]);
  }

  lemma RemovedManifest(cfg: Config, s: State, oid: Digest)
    requires cfg.hasStore && oid in s.entries && HasTier(s.entries[oid], P.Persistent)
    ensures ManifestFile(oid) !in RemovePlacement(cfg, s, oid, P.Persistent).state.disk
  {
    hide DropBlocks, IndexOf, Without;
    var e := s.entries[oid];
    var d := ApplyAll(s.disk, DropBlocks(s.diskRefs, s.storageUsed, s.disk, e.blocks).ops);
    if ManifestFile(oid) in d {
      assert [Remove(ManifestFile(oid))][1..] == [];
      assert ApplyAll(d, [Remove(ManifestFile(oid))]) == d - {ManifestFile(oid)};
    }
  }

  lemma RemoveRefused(cfg: Config, s: State, oid: Digest, t: Tier)
    requires oid !in s.entries || !HasTier(s.entries[oid], t)
    ensures RemovePlacement(cfg, s, oid, t).ops == [] && RemovePlacement(cfg, s, oid, t).state == s
  {
  }

  lemma {:induction false} TrackedTiers(cfg: Config, r: Rules, a: Registry, m: Registry, s: State, oid: Digest,
                                        tiers: seq<Tier>, strict: bool)
    requires Serves(cfg, r) && StateOk(r, a, m, s) && Tracked(m, s.entries)
    ensures var x := RemoveTiers(cfg, s, oid, tiers, strict); Tracked(DescribedAfter(m, a, x.ops), x.state.entries)
    decreases |tiers|
  {
    hide Serves, StateOk, RemovePlacement, Tracked;
    if tiers != [] {
      var y := RemovePlacement(cfg, s, oid, tiers[0]);
      TrackedRemove(cfg, r, a, m, s, oid, tiers[0]);
      if !(strict && y.result.Err?) {
        KeptRemovePlacement(cfg, r, a, m, s, oid, tiers[0]);
        KeptState(r, a, m, s, y.state, y.ops, if tiers[0] == P.Persistent then {oid} else {});
        TrackedTiers(cfg, r, a, DescribedAfter(m, a, y.ops), y.state, oid, tiers[1..], strict);
        RunConcat(r, m, a, s.disk, y.ops, RemoveTiers(cfg, y.state, oid, tiers[1..], strict).ops);
      }
    }
  }

  lemma TrackedDelete(cfg: Config, r: Rules, a: Registry, m: Registry, s: State, oid: Digest)
    requires Serves(cfg, r) && StateOk(r, a, m, s) && Tracked(m, s.entries)
    ensures var x := Delete(cfg, s, oid); Tracked(DescribedAfter(m, a, x.ops), x.state.entries)
  {
    hide Serves, StateOk, RemoveTiers, ApplyAll;
    if oid in s.entries {
      var tiers := Tiers(s.entries[oid].placements);
      var y := RemoveTiers(cfg, s, oid, tiers, true);
      TrackedTiers(cfg, r, a, m, s, oid, tiers, true);
      if y.result.Ok? {
        var m1 := DescribedAfter(m, a, y.ops);
        RemoveTiersShape(cfg, s, oid, tiers, true);
        DistinctOf(r, a, m, s, oid);
        AllStripped(s.entries[oid].placements);
        assert oid !in m1;
        var ops := if cfg.hasStore then RemoveIfThere(y.state.disk, ManifestFile(oid)) else [];
        RunConcat(r, m, a, s.disk, y.ops, ops);
        DescribedOnlyLess(m1, a, ops);
      }
    }
  }

  lemma DescribedOnlyLess(m: Registry, a: Registry, ops: seq<DiskOp>)
    requires NoManifest(ops)
    ensures forall o :: o in DescribedAfter(m, a, ops) ==> o in m
  {
    hide DescribedAfter;
    forall o | o in DescribedAfter(m, a, ops)
      ensures o in m
    {
      UnwrittenDescribed(m, a, ops, o);
    }
  }

  lemma TrackedRegister(cfg: Config, r: Rules, a: Registry, m: Registry, s: State, address: Address, k: CompatKey,
                        payload: Bytes, now: u64)
    requires Serves(cfg, r) && StateOk(r, a, m, s) && Tracked(m, s.entries)
    requires OpOk(cfg, r, DoRegister(address, k, payload), now)
    ensures Tracked(m, Register(cfg, s, address, k, payload, now).state.entries)
  {
    hide Serves, StateOk, Register, CheckPayload, WithRoom, AcquireAll;
    var charge := ChargeFor(cfg, s, k, payload);
    var s1 := WithRoom(cfg, s, charge, now);
    assert Kept(r, a, m, s, s1, [], {}) by { RoomKept(cfg, r, a, m, s, charge, now); }
    TrackedOffDisk(m, s.entries, s1.entries);
    if Register(cfg, s, address, k, payload, now).result.Ok? {
      RegistrationStoresAfterRoom(cfg, r, a, m, s, address, k, payload, now);
    } else {
      RegistrationRefused(cfg, r, a, m, s, address, k, payload, now);
    }
  }

  lemma RoomKept(cfg: Config, r: Rules, a: Registry, m: Registry, s: State, charge: nat, now: u64)
    requires Serves(cfg, r) && StateOk(r, a, m, s)
    ensures Kept(r, a, m, s, WithRoom(cfg, s, charge, now), [], {})
  {
    hide Serves, StateOk, Kept, EvictToFree;
    RoomMade(cfg, r, a, m, s, charge, now);
  }

  /** Every completed operation keeps every manifest with an entry on disk. */
  lemma TrackedStep(cfg: Config, r: Rules, a: Registry, m: Registry, s: State, op: Op, now: u64)
    requires Serves(cfg, r) && StateOk(r, a, m, s) && Tracked(m, s.entries) && OpOk(cfg, r, op, now)
    ensures var x := Step(cfg, s, op, now); Tracked(DescribedAfter(m, a, x.ops), x.state.entries)
  {
    hide Serves, StateOk, Register, Restore, Ensure, RemovePlacement, Evict, Delete, OpOk;
    match op
    case DoRegister(address, k, payload) =>
      RegisterTouchesNoFile(cfg, s, address, k, payload, now);
      TrackedRegister(cfg, r, a, m, s, address, k, payload, now);
    case DoLookup(_, _) =>
    case DoRestore(oid, t) => TrackedRestore(cfg, r, a, m, s, oid, t, now);
    case DoPromote(oid, t) => TrackedRestore(cfg, r, a, m, s, oid, t, now);
    case DoDemote(oid, t) => TrackedDemote(cfg, r, a, m, s, oid, t);
    case DoPersist(oid) => TrackedEnsure(cfg, r, a, m, s, oid, P.Persistent);
    case DoEvict(oid) => TrackedEvict(cfg, r, a, m, s, oid);
    case DoDelete(oid) => TrackedDelete(cfg, r, a, m, s, oid);
  }

  lemma TrackedDemote(cfg: Config, r: Rules, a: Registry, m: Registry, s: State, oid: Digest, from: Tier)
    requires Serves(cfg, r) && StateOk(r, a, m, s) && Tracked(m, s.entries)
    ensures var x := Demote(cfg, s, oid, from); Tracked(DescribedAfter(m, a, x.ops), x.state.entries)
  {
    hide Serves, StateOk, Ensure, RemovePlacement, HasTier, Tracked;
    if NextLower(from).Ok? {
      var x := Ensure(cfg, s, oid, NextLower(from).value);
      TrackedEnsure(cfg, r, a, m, s, oid, NextLower(from).value);
      KeptEnsure(cfg, r, a, m, s, oid, NextLower(from).value);
      KeptState(r, a, m, s, x.state, x.ops, {});
      TrackedRemove(cfg, r, a, DescribedAfter(m, a, x.ops), x.state, oid, from);
      RunConcat(r, m, a, s.disk, x.ops, RemovePlacement(cfg, x.state, oid, from).ops);
    }
  }

  lemma TrackedEvict(cfg: Config, r: Rules, a: Registry, m: Registry, s: State, oid: Digest)
    requires Serves(cfg, r) && StateOk(r, a, m, s) && Tracked(m, s.entries)
    ensures var x := Evict(cfg, s, oid); Tracked(DescribedAfter(m, a, x.ops), x.state.entries)
  {
    hide Serves, StateOk, RemoveTiers, Tracked;
    if oid in s.entries {
      TrackedTiers(cfg, r, a, m, s, oid, Volatile(Tiers(s.entries[oid].placements)), true);
    }
  }

  // ---- Crashes -----------------------------------------------------------------------------

  /** A manifest is left of an object that is not the one registered under that identity now. */
  ghost predicate Stale(w: World, oid: Digest) {
    oid in w.m && !(oid in w.a && w.m[oid] == w.a[oid])
  }

  lemma TrackedIsFresh(r: Rules, w: World, oid: Digest)
    requires WorldOk(r, w) && Tracked(w.m, w.s.entries)
    ensures !Stale(w, oid)
  {
    hide EntryOk, DiskSound, HostOk, StoreOk, DeviceOk;
  }

  /** A manifest written before the crash was written by the operation's last step. */
  lemma WrittenAtEnd(cfg: Config, r: Rules, w: World, ev: Event, o: Digest)
    requires EventOk(cfg, r, w, ev) && ev.CrashIn? && o !in w.m && o in Next(cfg, r, w, ev).m
    ensures var ops := Step(cfg, w.s, ev.op, ev.now).ops; ops[..ev.k] == ops && o in Persisting(ev.op)
  {
    hide Step, Open, OpOk, SameButTemps, Lists, Admitted;
    var ops := Step(cfg, w.s, ev.op, ev.now).ops;
    StepWrites(cfg, w.s, ev.op, ev.now);
    if forall i :: 0 <= i < |ops[..ev.k]| && WritesManifest(ops[..ev.k][i]) ==> ops[..ev.k][i].to.oid != o {
      UnwrittenDescribed(w.m, w.a, ops[..ev.k], o);
    }
  }

  /**
   * A crash leaves a manifest that is not admitted only if the layout of its object does not suit its shape, or if it
   * fell into the deletion of that very object.
   */
  lemma WhatLeavesStale(cfg: Config, r: Rules, w: World, ev: Event, o: Digest)
    requires Serves(cfg, r) && WorldOk(r, w) && Tracked(w.m, w.s.entries) && cfg.hasStore
    requires ev.CrashIn? && EventOk(cfg, r, w, ev) && o in Next(cfg, r, w, ev).m && o !in Next(cfg, r, w, ev).a
    ensures (o in w.a && !r.readable(w.a[o])) || ev.op == DoDelete(o)
  {
    hide Serves, EventOk, StateOk, Next;
    if ev.op != DoDelete(o) {
      if o in w.m {
        PersistedSurvives(cfg, r, w, ev, o);
      } else {
        WrittenIsAdmitted(cfg, r, w, ev, o);
      }
    }
  }

  lemma WrittenIsAdmitted(cfg: Config, r: Rules, w: World, ev: Event, o: Digest)
    requires Serves(cfg, r) && WorldOk(r, w) && Tracked(w.m, w.s.entries) && cfg.hasStore
    requires ev.CrashIn? && EventOk(cfg, r, w, ev) && o !in w.m && o in Next(cfg, r, w, ev).m
    ensures o in w.a && (o in Next(cfg, r, w, ev).a <==> r.readable(w.a[o]))
  {
    hide Serves, Step, OpOk, StateOk, SafeRun, Open, Clean, SameButTemps, SparesPersisted, ApplyAll, DescribedAfter;
    hide BlocksExist;
    WrittenAtEnd(cfg, r, w, ev, o);
    var x := Step(cfg, w.s, ev.op, ev.now);
    StepRefines(cfg, r, w.a, w.m, w.s, ev.op, ev.now);
    TrackedStep(cfg, r, w.a, w.m, w.s, ev.op, ev.now);
    assert AbstractStep(cfg, w.a, ev.op, ev.now, x.result.Ok?) == w.a;
    PersistedFacts(r, w.a, DescribedAfter(w.m, w.a, x.ops), x.state, o);
    ImageHasBlocks(x.state.disk, ev.image, r.blocks(w.a[o]));
    StateDisk(r, w.a, DescribedAfter(w.m, w.a, x.ops), x.state, o);
    ImageHas(x.state.disk, ev.image, ManifestFile(o));
  }

  lemma StateDisk(r: Rules, a: Registry, m: Registry, s: State, o: Digest)
    requires StateOk(r, a, m, s) && o in m
    ensures ManifestFile(o) in s.disk
  {
    hide EntriesOk, HostOk, StoreOk, DeviceOk, Linked;
  }

  // ---- Whole runs --------------------------------------------------------------------------

  /** Every crash of the run left only manifests that the reopening admitted. */
  ghost predicate CrashesClean(cfg: Config, r: Rules, w: World, evs: seq<Event>)
    requires RunOk(cfg, r, w, evs)
    decreases |evs|
  {
    evs != [] ==>
      var w' := Next(cfg, r, w, evs[0]);
      (evs[0].CrashIn? ==> w'.m.Keys <= w'.a.Keys) && CrashesClean(cfg, r, w', evs[1..])
  }

  lemma TrackedNext(cfg: Config, r: Rules, w: World, ev: Event)
    requires Serves(cfg, r) && WorldOk(r, w) && EventOk(cfg, r, w, ev) && Tracked(w.m, w.s.entries)
    ensures var w' := Next(cfg, r, w, ev); ev.Run? || w'.m.Keys <= w'.a.Keys ==> Tracked(w'.m, w'.s.entries)
  {
    hide Serves, StateOk, Step, OpOk, Open;
    var w' := Next(cfg, r, w, ev);
    if ev.Run? {
      TrackedStep(cfg, r, w.a, w.m, w.s, ev.op, ev.now);
    } else if w'.m.Keys <= w'.a.Keys {
      NextKeeps(cfg, r, w, ev);
      EntryKeys(r, w'.a, w'.m, w'.s);
      forall o | o in w'.m
        ensures o in w'.s.entries && OnDisk in w'.s.entries[o].placements
      {
        assert o in w'.a.Keys;
        OpenedEntryPlaced(cfg, ev.image, ev.listing, ev.hostCapacity, ev.storageCapacity, ev.backends, ev.reopenedAt,
          o);
      }
    }
  }

  /** As long as no crash leaves an unadmitted manifest, no manifest is ever stale. */
  lemma {:induction false} FreshRun(cfg: Config, r: Rules, w: World, evs: seq<Event>)
    requires Serves(cfg, r) && WorldOk(r, w) && Tracked(w.m, w.s.entries) && RunOk(cfg, r, w, evs)
    requires CrashesClean(cfg, r, w, evs)
    ensures Tracked(After(cfg, r, w, evs).m, After(cfg, r, w, evs).s.entries)
    decreases |evs|
  {
    hide Serves, WorldOk, EventOk, Next, Tracked;
    if evs != [] {
      NextKeeps(cfg, r, w, evs[0]);
      TrackedNext(cfg, r, w, evs[0]);
      FreshRun(cfg, r, Next(cfg, r, w, evs[0]), evs[1..]);
    }
  }
}

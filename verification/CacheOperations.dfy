/** Every operation of the runtime keeps the invariant, and every crash point inside it is safe. */
module CacheOperations {
  import opened Prelude
  import opened Storage
  import opened Accounting
  import opened BlockArena
  import opened CacheSpec
  import opened CacheLoads
  import opened DiskSafety
  import opened CacheInvariant
  import opened CacheSteps
  import opened CacheKept
  import P = Planner

  // ---- Persisting --------------------------------------------------------------------------

  lemma StoreIgnoresManifestWrite(refs: map<Digest, nat>, used: nat, d: Disk, total: multiset<Item>, oid: Digest,
                                  data: Bytes)
    requires StoreOk(refs, used, d, total)
    ensures StoreOk(refs, used, (d - {Temp(ManifestFile(oid))})[ManifestFile(oid) := data], total)
  {
    assert FileSizes(refs, (d - {Temp(ManifestFile(oid))})[ManifestFile(oid) := data]) == FileSizes(refs, d);
  }

  lemma WriteManifestSteps(r: Rules, m: Registry, a: Registry, d: Disk, oid: Digest)
    requires DiskSound(r, m, d) && oid in a && r.good(oid, a[oid])
    ensures var ops := AtomicWrite(d, ManifestFile(oid), r.text(oid, a[oid]));
      && SafeRun(r, a, d, ops)
      && ApplyAll(d, ops) == (d - {Temp(ManifestFile(oid))})[ManifestFile(oid) := r.text(oid, a[oid])]
      && DescribedAfter(m, a, ops) == m[oid := a[oid]] && DiskSound(r, m[oid := a[oid]], ApplyAll(d, ops))
      && forall p :: p != ManifestFile(oid) ==> Spares(ops, p)
  {
    var path := ManifestFile(oid);
    var ops := AtomicWrite(d, path, r.text(oid, a[oid]));
    AtomicWriteSafe(r, a, d, path, r.text(oid, a[oid]));
    SafeRunSound(r, m, a, d, ops);
    var last := [Rename(Temp(path), path)];
    assert ops[1..][1..] == RemoveIfThere(d, path) + last && last[1..] == [];
    assert DescribedAfter(m, a, last) == m[oid := a[oid]];
    if path in d {
      assert (RemoveIfThere(d, path) + last)[1..] == last;
      assert DescribedAfter(m - {oid}, a, last) == m[oid := a[oid]];
    } else {
      assert RemoveIfThere(d, path) + last == last;
    }
    assert DescribedAfter(m, a, ops) == DescribedAfter(m, a, ops[1..]) ==
      DescribedAfter(m, a, RemoveIfThere(d, path) + last);
  }

  lemma AddDiskSpares(entries: map<Digest, Entry>, oid: Digest, x: seq<DiskOp>, y: seq<DiskOp>)
    requires oid in entries && OnDisk !in entries[oid].placements
    requires (forall p :: Spares(x, p)) && (forall p :: p != ManifestFile(oid) ==> Spares(y, p))
    ensures SparesPersisted(entries, x + y, {})
  {
    forall p | p != ManifestFile(oid)
      ensures Spares(x + y, p)
    {
      assert Spares(x, p) && Spares(y, p);
    }
  }

  /** The state that a successful persist leads to. */
  function Persisted(s: State, oid: Digest, put: PutState, storage: Budget, d: Disk): State
    requires oid in s.entries
  {
    Push(s.(diskRefs := put.refs, storageUsed := put.used, storage := storage, disk := d), oid, OnDisk)
  }

  lemma AddDiskUnfolds(cfg: Config, r: Rules, s: State, oid: Digest, obj: Object)
    requires cfg.hasStore && oid in s.entries && Usable(cfg, r, oid, obj)
    requires EntryOk(r, s.backends.Keys, oid, obj, s.entries[oid])
    requires Sound(s.storage) && PutBlocks(s.diskRefs, s.storageUsed, s.disk, obj.payload, r.blocks(obj)).ok
    ensures var charge := Charged(s.diskRefs.Keys, r.blocks(obj));
      var put := PutBlocks(s.diskRefs, s.storageUsed, s.disk, obj.payload, r.blocks(obj));
      var d1 := ApplyAll(s.disk, put.ops); var ops := AtomicWrite(d1, ManifestFile(oid), r.text(oid, obj));
      AddDisk(cfg, s, oid, obj.payload) ==
        if charge > Free(s.storage) then Effect(s, [], Err(AdmissionRejected))
        else Effect(Persisted(s, oid, put, s.storage.(used := s.storage.used + charge), ApplyAll(d1, ops)),
          put.ops + ops, Ok(()))
  {
    hide PutBlocks, AtomicWrite, ApplyAll, Chunk, Charged, DistinctTiers, PlacementOk;
    var charge := Charged(s.diskRefs.Keys, r.blocks(obj));
    ReservationCommits(s.storage, charge);
    assert MetaOf(oid, s.entries[oid], r.blocks(obj), r.count(obj)) == MetaBy(r, oid, obj);
  }

  lemma AddDiskRefused(cfg: Config, s: State, oid: Digest, bytes: Bytes)
    requires oid in s.entries && |bytes| < TWO_64 && !cfg.hasStore
    ensures AddDisk(cfg, s, oid, bytes) == Effect(s, [], Err(Error.Persistence))
  {
  }

  lemma KeptAddDisk(cfg: Config, r: Rules, a: Registry, m: Registry, s: State, oid: Digest)
    requires cfg.hasStore && r.hasStore && r.content == cfg.content && NoCollision(r.content, r.known)
    requires StateOk(r, a, m, s)
    requires oid in s.entries && oid in a && !HasTier(s.entries[oid], P.Persistent)
    requires Usable(cfg, r, oid, a[oid]) && EntryOk(r, s.backends.Keys, oid, a[oid], s.entries[oid])
    ensures var x := AddDisk(cfg, s, oid, a[oid].payload);
      && Kept(r, a, m, s, x.state, x.ops, {})
      && (x.result.Err? ==> x.state == s && x.ops == [] && x.result.error == AdmissionRejected)
      && (x.result.Ok? ==> x.state.entries == Push(s, oid, OnDisk).entries)
  {
    hide EntriesOk, Linked, StillPersisted, DiskSound, HostOk, StoreOk, DeviceOk, Kept, Usable, DistinctTiers, AddDisk;
    hide PutBlocks, SafeRun, HasTier, NoCollision;
    var obj := a[oid];
    var bs := r.blocks(obj);
    var put := PutBlocks(s.diskRefs, s.storageUsed, s.disk, obj.payload, bs) by { UsableBlocks(cfg, r, oid, obj); }
    PutUsable(cfg, r, a, m, s, oid);
    AddDiskUnfolds(cfg, r, s, oid, obj);
    var charge := Charged(s.diskRefs.Keys, bs);
    if charge > Free(s.storage) {
      KeptTrivially(r, a, m, s, {});
    } else {
      ReservationCommits(s.storage, charge);
      var d1 := ApplyAll(s.disk, put.ops);
      var ops := AtomicWrite(d1, ManifestFile(oid), r.text(oid, obj));
      var storage := s.storage.(used := s.storage.used + charge);
      AddDiskKept(r, a, m, s, oid, put, storage, ops, Persisted(s, oid, put, storage, ApplyAll(d1, ops)));
    }
  }

  lemma UsableBlocks(cfg: Config, r: Rules, oid: Digest, obj: Object)
    requires Usable(cfg, r, oid, obj)
    ensures Inside(obj.payload, r.blocks(obj)) && |obj.payload| < TWO_64
  {
  }

  lemma PutUsable(cfg: Config, r: Rules, a: Registry, m: Registry, s: State, oid: Digest)
    requires r.content == cfg.content && NoCollision(r.content, r.known) && oid in a && Usable(cfg, r, oid, a[oid])
    requires StoreOk(s.diskRefs, s.storageUsed, s.disk, TotalLoad(s.entries)) && DiskSound(r, m, s.disk)
    ensures var bs := r.blocks(a[oid]);
      Inside(a[oid].payload, bs) &&
      var put := PutBlocks(s.diskRefs, s.storageUsed, s.disk, a[oid].payload, bs);
      && put.ok && BlockStepsOnly(r, m, a, s.disk, put.ops) && (forall p :: Spares(put.ops, p))
      && StoreOk(put.refs, put.used, ApplyAll(s.disk, put.ops), TotalLoad(s.entries) + Tagged(bs, true))
  {
    hide StoreOk, DiskSound, NoCollision, PutBlocks;
    StorePut(r, cfg.content, m, a, s.diskRefs, s.storageUsed, s.disk, TotalLoad(s.entries), a[oid].payload,
      r.blocks(a[oid]));
  }

  lemma AddDiskKept(r: Rules, a: Registry, m: Registry, s: State, oid: Digest, put: PutState, storage: Budget,
                    ops: seq<DiskOp>, s': State)
    requires r.hasStore && StateOk(r, a, m, s) && oid in s.entries && oid in a && r.good(oid, a[oid])
    requires s.entries[oid].blocks == r.blocks(a[oid])
    requires !HasTier(s.entries[oid], P.Persistent)
    requires BlockStepsOnly(r, m, a, s.disk, put.ops) && forall p :: Spares(put.ops, p)
    requires StoreOk(put.refs, put.used, ApplyAll(s.disk, put.ops),
      TotalLoad(s.entries) + Tagged(r.blocks(a[oid]), true))
    requires Sound(storage) && storage.reserved == 0
    requires ops == AtomicWrite(ApplyAll(s.disk, put.ops), ManifestFile(oid), r.text(oid, a[oid]))
    requires s' == Persisted(s, oid, put, storage, ApplyAll(ApplyAll(s.disk, put.ops), ops))
    ensures Kept(r, a, m, s, s', put.ops + ops, {})
  {
    hide EntriesOk, Linked, StillPersisted, DiskSound, HostOk, StoreOk, DeviceOk, SafeRun, HasTier, Load;
    hide SparesPersisted, BlockStepsOnly, AtomicWrite, Kept;
    var bs, t := r.blocks(a[oid]), TotalLoad(s.entries);
    var d1 := ApplyAll(s.disk, put.ops);
    BlockStepsSound(r, m, a, s.disk, put.ops);
    WriteManifestSteps(r, m, a, d1, oid);
    RunConcat(r, m, a, s.disk, put.ops, ops);
    StoreIgnoresManifestWrite(put.refs, put.used, d1, t + Tagged(bs, true), oid, r.text(oid, a[oid]));
    PushedEntries(r, a, m, s, oid, OnDisk);
    DiskLoad(bs);
    HostDevicesIgnoreDisk(r.content, r.known, s.arena, s.backends, s.accelUsed, t, bs);
    NotOnDisk(s.entries[oid]);
    AddDiskSpares(s.entries, oid, put.ops, ops);
    KeptOnDisk(r, a, m, s, s', put.ops + ops);
  }

  /** A step that leaves the host and the devices alone. */
  lemma KeptOnDisk(r: Rules, a: Registry, m: Registry, s: State, s': State, ops: seq<DiskOp>)
    requires StateOk(r, a, m, s)
    requires s'.arena == s.arena && s'.host == s.host && s'.backends == s.backends && s'.accelUsed == s.accelUsed
    requires s'.objectCount == s.objectCount
    requires |s'.entries| == |s.entries| && Sound(s'.storage) && s'.storage.reserved == 0
    requires s'.disk == ApplyAll(s.disk, ops) && SafeRun(r, a, s.disk, ops) && SparesPersisted(s.entries, ops, {})
    requires EntriesOk(r, a, s'.entries, s'.backends.Keys) && StillPersisted(s.entries, s'.entries, {})
    requires Linked(a, DescribedAfter(m, a, ops), s'.entries) && DiskSound(r, DescribedAfter(m, a, ops), s'.disk)
    requires StoreOk(s'.diskRefs, s'.storageUsed, s'.disk, TotalLoad(s'.entries))
    requires HostOk(r.content, r.known, s.arena, TotalLoad(s'.entries))
    requires DeviceOk(s.backends, s.accelUsed, TotalLoad(s'.entries))
    ensures Kept(r, a, m, s, s', ops, {})
  {
    hide EntriesOk, Linked, StillPersisted, DiskSound, HostOk, DeviceOk, StoreOk, SafeRun, SparesPersisted;
  }

  lemma DiskLoad(blocks: seq<BlockRef>)
    ensures Load(blocks, OnDisk) == Tagged(blocks, true)
  {
  }

  lemma NotOnDisk(e: Entry)
    ensures HasTier(e, P.Persistent) <==> OnDisk in e.placements
  {
    var i := IndexOf(e.placements, P.Persistent);
    if OnDisk in e.placements {
      var j :| 0 <= j < |e.placements| && e.placements[j] == OnDisk;
      assert TierOf(e.placements[j]) == P.Persistent;
    }
  }

  // ---- Removing one placement --------------------------------------------------------------

  lemma KeptWeaken(r: Rules, a: Registry, m: Registry, s: State, s': State, ops: seq<DiskOp>, gone: set<Digest>)
    requires Kept(r, a, m, s, s', ops, {})
    ensures Kept(r, a, m, s, s', ops, gone)
  {
    hide StateOk, SafeRun;
  }

  /** What is needed of one entry, taken out of the invariant. */
  lemma EntryFacts(cfg: Config, r: Rules, a: Registry, m: Registry, s: State, oid: Digest)
    requires Serves(cfg, r) && StateOk(r, a, m, s) && oid in s.entries
    ensures oid in a && EntryOk(r, s.backends.Keys, oid, a[oid], s.entries[oid]) && Usable(cfg, r, oid, a[oid])
    ensures r.content == cfg.content && r.hasStore == cfg.hasStore && NoCollision(r.content, r.known)
  {
    hide Usable, DistinctTiers, PlacementOk, Linked, DiskSound, HostOk, StoreOk, DeviceOk, NoCollision;
    assert EntryOk(r, s.backends.Keys, oid, a[oid], s.entries[oid]);
  }

  lemma EntryFileSizesOf(cfg: Config, r: Rules, a: Registry, m: Registry, s: State, oid: Digest)
    requires Serves(cfg, r) && StateOk(r, a, m, s) && oid in s.entries
    ensures TrueFileSizes(s.diskRefs, s.disk, s.entries[oid].blocks)
  {
    hide Linked, HostOk, DeviceOk;
    EntryFacts(cfg, r, a, m, s, oid);
    EntryFileSizes(cfg, r, m, oid, a[oid], s.diskRefs, s.disk);
  }

  /** Removing a placement keeps the invariant; only removing a storage placement touches files. */
  lemma KeptRemovePlacement(cfg: Config, r: Rules, a: Registry, m: Registry, s: State, oid: Digest, t: Tier)
    requires Serves(cfg, r) && StateOk(r, a, m, s)
    ensures var x := RemovePlacement(cfg, s, oid, t);
      && Kept(r, a, m, s, x.state, x.ops, if t == P.Persistent then {oid} else {})
      && (t != P.Persistent ==> x.ops == [])
  {
    hide Kept, StateOk, Serves, ReleaseAll, RemoveFromDevice, RemoveFromDisk, Usable;
    if oid !in s.entries || !HasTier(s.entries[oid], t) {
      KeptTrivially(r, a, m, s, if t == P.Persistent then {oid} else {});
    } else {
      var e := s.entries[oid];
      var i := IndexOf(e.placements, t);
      EntryFacts(cfg, r, a, m, s, oid);
      assert PlacementOk(r.hasStore, s.backends.Keys, a[oid], e.blocks, e.placements[i]);
      match e.placements[i]
      case InHost(_) =>
        KeptRemoveHost(r, a, m, s, oid, i);
      case OnDevice(b, data) =>
        KeptRemoveDevice(r, a, m, s, oid, i);
        assert b in s.backends.Keys;
      case OnDisk =>
        EntryFileSizesOf(cfg, r, a, m, s, oid);
        KeptRemoveDisk(cfg, r, a, m, s, oid, i);
    }
  }

  /** Whatever the outcome, a resident placement is gone from the entry and nothing else changes there. */
  lemma RemovePlacementShape(cfg: Config, s: State, oid: Digest, t: Tier)
    ensures RemovePlacement(cfg, s, oid, t).state.entries ==
      if oid in s.entries && HasTier(s.entries[oid], t) then
        Taken(s, oid, IndexOf(s.entries[oid].placements, t)).entries else s.entries
  {
    hide ReleaseAll, DropBlocks;
  }

  // ---- Removing several placements ---------------------------------------------------------

  /** The placements left after removing tiers one by one. */
  function Stripped(ps: seq<Placement>, tiers: seq<Tier>): seq<Placement>
    decreases |tiers|
  {
    if tiers == [] then ps
    else Stripped(if IndexOf(ps, tiers[0]) < |ps| then Without(ps, IndexOf(ps, tiers[0])) else ps, tiers[1..])
  }

  lemma WithoutDistinct(ps: seq<Placement>, i: nat)
    requires DistinctTiers(ps) && i < |ps|
    ensures DistinctTiers(Without(ps, i))
    ensures forall p :: p in Without(ps, i) <==> p in ps && TierOf(p) != TierOf(ps[i])
  {
    var qs := Without(ps, i);
    assert forall j :: 0 <= j < |qs| ==> qs[j] == ps[if j < i then j else j + 1];
    forall p | p in ps && TierOf(p) != TierOf(ps[i])
      ensures p in qs
    {
      WithoutKeepsOthers(ps, i, p);
    }
  }

  /** Exactly the placements of other tiers are left. */
  lemma {:induction false} StrippedMembers(ps: seq<Placement>, tiers: seq<Tier>, p: Placement)
    requires DistinctTiers(ps)
    ensures p in Stripped(ps, tiers) <==> p in ps && TierOf(p) !in tiers
    decreases |tiers|
  {
    if tiers != [] {
      var i := IndexOf(ps, tiers[0]);
      assert TierOf(p) in tiers <==> TierOf(p) == tiers[0] || TierOf(p) in tiers[1..];
      if i < |ps| {
        WithoutDistinct(ps, i);
        StrippedMembers(Without(ps, i), tiers[1..], p);
      } else {
        StrippedMembers(ps, tiers[1..], p);
      }
    }
  }

  function WithPlacements(entries: map<Digest, Entry>, oid: Digest, ps: seq<Placement>): map<Digest, Entry>
    requires oid in entries
  {
    entries[oid := entries[oid].(placements := ps)]
  }

  lemma SetTwice(entries: map<Digest, Entry>, oid: Digest, ps: seq<Placement>, qs: seq<Placement>)
    requires oid in entries
    ensures WithPlacements(WithPlacements(entries, oid, ps), oid, qs) == WithPlacements(entries, oid, qs)
    ensures WithPlacements(entries, oid, entries[oid].placements) == entries
  {
  }

  /** A lenient or fully successful removal leaves exactly the stripped placements. */
  lemma {:induction false} RemoveTiersShape(cfg: Config, s: State, oid: Digest, tiers: seq<Tier>, strict: bool)
    requires oid in s.entries
    ensures var x := RemoveTiers(cfg, s, oid, tiers, strict);
      !strict || x.result.Ok? ==>
        x.state.entries == WithPlacements(s.entries, oid, Stripped(s.entries[oid].placements, tiers))
    decreases |tiers|
  {
    hide RemovePlacement;
    var ps := s.entries[oid].placements;
    SetTwice(s.entries, oid, ps, ps);
    if tiers != [] {
      var y := RemovePlacement(cfg, s, oid, tiers[0]);
      RemovePlacementShape(cfg, s, oid, tiers[0]);
      var qs := if IndexOf(ps, tiers[0]) < |ps| then Without(ps, IndexOf(ps, tiers[0])) else ps;
      assert y.state.entries == WithPlacements(s.entries, oid, qs);
      if !(strict && y.result.Err?) {
        RemoveTiersShape(cfg, y.state, oid, tiers[1..], strict);
        SetTwice(s.entries, oid, qs, Stripped(qs, tiers[1..]));
      }
    }
  }

  lemma {:induction false} KeptRemoveTiers(cfg: Config, r: Rules, a: Registry, m: Registry, s: State, oid: Digest,
                                           tiers: seq<Tier>, strict: bool)
    requires Serves(cfg, r) && StateOk(r, a, m, s)
    ensures var x := RemoveTiers(cfg, s, oid, tiers, strict);
      && Kept(r, a, m, s, x.state, x.ops, if P.Persistent in tiers then {oid} else {})
      && (P.Persistent !in tiers ==> x.ops == [])
    decreases |tiers|
  {
    hide Kept, Serves, RemovePlacement, EntriesOk, Linked, DiskSound, HostOk, StoreOk, DeviceOk;
    var gone := if P.Persistent in tiers then {oid} else {};
    if tiers == [] {
      KeptTrivially(r, a, m, s, gone);
    } else {
      var y := RemovePlacement(cfg, s, oid, tiers[0]);
      KeptRemovePlacement(cfg, r, a, m, s, oid, tiers[0]);
      assert tiers[0] in tiers && forall t :: t in tiers[1..] ==> t in tiers;
      if tiers[0] != P.Persistent {
        KeptWeaken(r, a, m, s, y.state, y.ops, gone);
      }
      if !(strict && y.result.Err?) {
        var m1 := DescribedAfter(m, a, y.ops);
        KeptState(r, a, m, s, y.state, y.ops, gone);
        KeptRemoveTiers(cfg, r, a, m1, y.state, oid, tiers[1..], strict);
        var z := RemoveTiers(cfg, y.state, oid, tiers[1..], strict);
        if P.Persistent !in tiers[1..] {
          KeptWeaken(r, a, m1, y.state, z.state, z.ops, gone);
        }
        KeptConcat(r, a, m, s, y.state, z.state, y.ops, z.ops, gone);
      }
    }
  }

  lemma KeptState(r: Rules, a: Registry, m: Registry, s: State, s': State, ops: seq<DiskOp>, gone: set<Digest>)
    requires Kept(r, a, m, s, s', ops, gone)
    ensures StateOk(r, a, DescribedAfter(m, a, ops), s') && SafeRun(r, a, s.disk, ops)
    ensures s'.disk == ApplyAll(s.disk, ops)
    ensures SparesPersisted(s.entries, ops, gone) && StillPersisted(s.entries, s'.entries, gone)
  {
  }

  // ---- Eviction ----------------------------------------------------------------------------

  lemma {:induction false} VolatileMembers(tiers: seq<Tier>, t: Tier)
    ensures t in Volatile(tiers) <==> t in tiers && t != P.Persistent
  {
    if tiers != [] {
      VolatileMembers(tiers[1..], t);
      assert t in tiers <==> t == tiers[0] || t in tiers[1..];
    }
  }

  lemma {:induction false} TiersMembers(ps: seq<Placement>, t: Tier)
    ensures t in Tiers(ps) <==> exists p :: p in ps && TierOf(p) == t
  {
    if ps != [] {
      TiersMembers(ps[1..], t);
      assert forall p :: p in ps <==> p == ps[0] || p in ps[1..];
    }
  }

  lemma KeptEvictOne(cfg: Config, r: Rules, a: Registry, m: Registry, s: State, oid: Digest)
    requires Serves(cfg, r) && StateOk(r, a, m, s)
    ensures Kept(r, a, m, s, EvictOne(cfg, s, oid), [], {})
  {
    hide Kept, Serves, StateOk;
    if oid in s.entries {
      var tiers := Volatile(Tiers(s.entries[oid].placements));
      VolatileMembers(Tiers(s.entries[oid].placements), P.Persistent);
      KeptRemoveTiers(cfg, r, a, m, s, oid, tiers, false);
    } else {
      KeptTrivially(r, a, m, s, {});
    }
  }

  lemma {:induction false} KeptEvictInOrder(cfg: Config, r: Rules, a: Registry, m: Registry, s: State,
                                            order: seq<Digest>, goal: Goal)
    requires Serves(cfg, r) && StateOk(r, a, m, s)
    ensures Kept(r, a, m, s, EvictInOrder(cfg, s, order, goal), [], {})
    decreases |order|
  {
    hide Kept, Serves, StateOk, EvictOne;
    if order == [] || Reached(goal, s) {
      KeptTrivially(r, a, m, s, {});
    } else {
      var s1 := EvictOne(cfg, s, order[0]);
      KeptEvictOne(cfg, r, a, m, s, order[0]);
      KeptState(r, a, m, s, s1, [], {});
      KeptEvictInOrder(cfg, r, a, m, s1, order[1..], goal);
      var none: seq<DiskOp> := [];
      KeptConcat(r, a, m, s, s1, EvictInOrder(cfg, s1, order[1..], goal), none, none, {});
      assert none + none == none;
    }
  }

  /** The capacity pass after an operation never evicts: the budget is already within capacity. */
  lemma EnforceCapacityIsIdle(cfg: Config, r: Rules, a: Registry, m: Registry, s: State, now: u64)
    requires StateOk(r, a, m, s)
    ensures EnforceCapacity(cfg, s, now) == s
  {
    hide EntriesOk, Linked, DiskSound, HostOk, StoreOk, DeviceOk, EvictionList;
  }

  // ---- Adding placements and making sure of one --------------------------------------------

  lemma KeptAddPlacement(cfg: Config, r: Rules, a: Registry, m: Registry, s: State, oid: Digest, t: Tier)
    requires Serves(cfg, r) && StateOk(r, a, m, s) && oid in s.entries && oid in a && !HasTier(s.entries[oid], t)
    ensures var x := AddPlacement(cfg, s, oid, t, a[oid].payload);
      && Kept(r, a, m, s, x.state, x.ops, {})
      && (x.result.Err? ==> x.state == s && x.ops == [])
      && (x.result.Ok? ==> exists p :: TierOf(p) == t && x.state.entries == Push(s, oid, p).entries)
  {
    hide Kept, StateOk, Serves, AddHost, AddDevice, AddDisk, HasTier, Usable;
    EntryFacts(cfg, r, a, m, s, oid);
    UsableBlocks(cfg, r, oid, a[oid]);
    UsableLength(cfg, r, oid, a[oid]);
    match t
    case Host =>
      KeptAddHost(cfg, r, a, m, s, oid);
      assert TierOf(InHost(s.entries[oid].blocks)) == t;
    case Accelerator(b) =>
      KeptAddDevice(r, a, m, s, oid, b);
      assert TierOf(OnDevice(b, a[oid].payload)) == t;
    case Persistent =>
      assert TierOf(OnDisk) == t;
      if cfg.hasStore {
        KeptAddDisk(cfg, r, a, m, s, oid);
      } else {
        AddDiskRefused(cfg, s, oid, a[oid].payload);
        KeptTrivially(r, a, m, s, {});
      }
  }

  lemma UsableLength(cfg: Config, r: Rules, oid: Digest, obj: Object)
    requires Usable(cfg, r, oid, obj)
    ensures r.length(obj) == |obj.payload|
  {
  }

  lemma KeptEnsure(cfg: Config, r: Rules, a: Registry, m: Registry, s: State, oid: Digest, t: Tier)
    requires Serves(cfg, r) && StateOk(r, a, m, s)
    ensures var x := Ensure(cfg, s, oid, t);
      && Kept(r, a, m, s, x.state, x.ops, {})
      && (x.result.Err? ==> x.state == s && x.ops == [])
      && (x.result.Ok? ==> oid in x.state.entries && HasTier(x.state.entries[oid], t))
  {
    hide Kept, Serves, AddPlacement, Materialize, Linked, DiskSound, HostOk, StoreOk, DeviceOk, DistinctTiers;
    hide PlacementOk;
    KeptTrivially(r, a, m, s, {});
    if oid in s.entries && !HasTier(s.entries[oid], t) {
      MaterializeYieldsPayload(cfg, r, a, m, s, oid);
      if s.entries[oid].placements != [] {
        KeptAddPlacement(cfg, r, a, m, s, oid, t);
        var x := AddPlacement(cfg, s, oid, t, a[oid].payload);
        if x.result.Ok? {
          var p :| TierOf(p) == t && x.state.entries == Push(s, oid, p).entries;
          var ps := x.state.entries[oid].placements;
          assert ps[|ps| - 1] == p;
          assert IndexOf(ps, t) <= |ps| - 1;
        }
      }
    }
  }
}

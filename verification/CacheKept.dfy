/** Adding and removing placements keeps the invariant, at the end and at every crash point on the way. */
module CacheKept {
  import opened Prelude
  import opened Storage
  import opened Accounting
  import opened BlockArena
  import opened CacheSpec
  import opened CacheLoads
  import opened DiskSafety
  import opened CacheInvariant
  import opened CacheSteps
  import P = Planner

  /** No step removes a file that a persisted entry outside `gone` depends on. */
  ghost predicate SparesPersisted(entries: map<Digest, Entry>, ops: seq<DiskOp>, gone: set<Digest>) {
    forall oid :: oid in entries && oid !in gone && OnDisk in entries[oid].placements ==>
      Spares(ops, ManifestFile(oid)) && forall b :: b in entries[oid].blocks ==> Spares(ops, BlockFile(b.hash))
  }

  /** Entries outside `gone` keep their storage placement, and nobody's blocks change. */
  ghost predicate StillPersisted(entries: map<Digest, Entry>, after: map<Digest, Entry>, gone: set<Digest>) {
    forall oid :: oid in entries ==>
      && oid in after && after[oid].blocks == entries[oid].blocks
      && (oid !in gone && OnDisk in entries[oid].placements ==> OnDisk in after[oid].placements)
  }

  /** The steps lead from `s` to `s'` safely, and harm at most the persistence of `gone`. */
  ghost predicate Kept(r: Rules, a: Registry, m: Registry, s: State, s': State, ops: seq<DiskOp>, gone: set<Digest>) {
    && s'.disk == ApplyAll(s.disk, ops)
    && SafeRun(r, a, s.disk, ops)
    && StateOk(r, a, DescribedAfter(m, a, ops), s')
    && SparesPersisted(s.entries, ops, gone)
    && StillPersisted(s.entries, s'.entries, gone)
  }

  lemma KeptTrivially(r: Rules, a: Registry, m: Registry, s: State, gone: set<Digest>)
    requires StateOk(r, a, m, s)
    ensures Kept(r, a, m, s, s, [], gone)
  {
  }

  /** A step that leaves the disk and the storage references alone. */
  lemma KeptOffDisk(r: Rules, a: Registry, m: Registry, s: State, s': State)
    requires StateOk(r, a, m, s)
    requires s'.disk == s.disk && s'.diskRefs == s.diskRefs && s'.storageUsed == s.storageUsed
    requires s'.storage == s.storage
    requires s'.objectCount == s.objectCount && |s'.entries| == |s.entries| && Sound(s'.host) && s'.host.reserved == 0
    requires EntriesOk(r, a, s'.entries, s'.backends.Keys) && Linked(a, m, s'.entries)
    requires StillPersisted(s.entries, s'.entries, {})
    requires HostOk(r.content, r.known, s'.arena, TotalLoad(s'.entries))
    requires DeviceOk(s'.backends, s'.accelUsed, TotalLoad(s'.entries))
    requires forall h :: TotalLoad(s'.entries)[DiskRef(h)] == TotalLoad(s.entries)[DiskRef(h)]
    ensures Kept(r, a, m, s, s', [], {})
  {
    hide EntriesOk, Linked, StillPersisted, DiskSound, HostOk, DeviceOk;
  }

  lemma SparesConcat(entries: map<Digest, Entry>, between: map<Digest, Entry>, x: seq<DiskOp>, y: seq<DiskOp>,
                     gone: set<Digest>)
    requires SparesPersisted(entries, x, gone) && StillPersisted(entries, between, gone)
    requires SparesPersisted(between, y, gone)
    ensures SparesPersisted(entries, x + y, gone)
  {
    forall oid | oid in entries && oid !in gone && OnDisk in entries[oid].placements
      ensures Spares(x + y, ManifestFile(oid)) && forall b :: b in entries[oid].blocks ==>
        Spares(x + y, BlockFile(b.hash))
    {
      assert Spares(x, ManifestFile(oid)) && Spares(y, ManifestFile(oid));
      forall b | b in entries[oid].blocks
        ensures Spares(x + y, BlockFile(b.hash))
      {
        assert b in between[oid].blocks;
        assert Spares(x, BlockFile(b.hash)) && Spares(y, BlockFile(b.hash));
      }
    }
  }

  lemma KeptConcat(r: Rules, a: Registry, m: Registry, s: State, s1: State, s2: State,
                   x: seq<DiskOp>, y: seq<DiskOp>, gone: set<Digest>)
    requires Kept(r, a, m, s, s1, x, gone) && Kept(r, a, DescribedAfter(m, a, x), s1, s2, y, gone)
    ensures Kept(r, a, m, s, s2, x + y, gone)
  {
    RunConcat(r, m, a, s.disk, x, y);
    SparesConcat(s.entries, s1.entries, x, y, gone);
  }

  // ---- Entries -----------------------------------------------------------------------------

  lemma EntriesReplaced(r: Rules, a: Registry, entries: map<Digest, Entry>, backends: set<BackendId>, oid: Digest,
                        e: Entry)
    requires EntriesOk(r, a, entries, backends) && oid in entries && EntryOk(r, backends, oid, a[oid], e)
    ensures EntriesOk(r, a, entries[oid := e], backends) && |entries[oid := e]| == |entries|
  {
    var after := entries[oid := e];
    assert after.Keys == entries.Keys;
    forall o | o in after
      ensures EntryOk(r, backends, o, a[o], after[o])
    {
      assert o != oid ==> EntryOk(r, backends, o, a[o], entries[o]);
    }
  }

  lemma EntriesInserted(r: Rules, a: Registry, entries: map<Digest, Entry>, backends: set<BackendId>, oid: Digest,
                        obj: Object, e: Entry)
    requires EntriesOk(r, a, entries, backends) && oid !in entries && EntryOk(r, backends, oid, obj, e)
    ensures EntriesOk(r, a[oid := obj], entries[oid := e], backends) && |entries[oid := e]| == |entries| + 1
  {
    hide DistinctTiers, PlacementOk;
    var after, b := entries[oid := e], a[oid := obj];
    assert after.Keys == entries.Keys + {oid} && b.Keys == a.Keys + {oid};
    assert |after.Keys| == |entries.Keys| + 1;
    forall o | o in after
      ensures EntryOk(r, backends, o, b[o], after[o])
    {
      assert o != oid ==> EntryOk(r, backends, o, a[o], entries[o]);
    }
  }

  lemma LinkedInserted(a: Registry, m: Registry, entries: map<Digest, Entry>, oid: Digest, obj: Object, e: Entry)
    requires Linked(a, m, entries) && oid !in entries && (OnDisk in e.placements ==> oid in m && m[oid] == obj)
    ensures Linked(a[oid := obj], m, entries[oid := e])
  {
  }

  lemma TotalInserted(entries: map<Digest, Entry>, oid: Digest, e: Entry, p: Placement)
    requires oid !in entries && e.placements == [p]
    ensures TotalLoad(entries[oid := e]) == TotalLoad(entries) + Load(e.blocks, p)
  {
    TotalReplace(entries, oid, e);
    assert e.placements[1..] == [];
    assert LoadAll(e.blocks, e.placements) == Load(e.blocks, p);
  }

  lemma EntryWithout(r: Rules, backends: set<BackendId>, oid: Digest, obj: Object, e: Entry, i: nat)
    requires EntryOk(r, backends, oid, obj, e) && i < |e.placements|
    ensures EntryOk(r, backends, oid, obj, e.(placements := Without(e.placements, i)))
  {
    var ps, qs := e.placements, Without(e.placements, i);
    assert forall j :: 0 <= j < |qs| ==> qs[j] == ps[if j < i then j else j + 1];
  }

  lemma EntryPushed(r: Rules, backends: set<BackendId>, oid: Digest, obj: Object, e: Entry, p: Placement)
    requires EntryOk(r, backends, oid, obj, e) && !HasTier(e, TierOf(p))
    requires PlacementOk(r.hasStore, backends, obj, e.blocks, p)
    ensures EntryOk(r, backends, oid, obj, e.(placements := e.placements + [p]))
  {
  }

  lemma WithoutAddsNothing(ps: seq<Placement>, i: nat, p: Placement)
    requires i < |ps| && p in Without(ps, i)
    ensures p in ps
  {
  }

  lemma WithoutKeepsOthers(ps: seq<Placement>, i: nat, p: Placement)
    requires i < |ps| && p in ps && ps[i] != p
    ensures p in Without(ps, i)
  {
    var j :| 0 <= j < |ps| && ps[j] == p;
    assert Without(ps, i)[if j < i then j else j - 1] == p;
  }

  // ---- Removing ----------------------------------------------------------------------------

  function Taken(s: State, oid: Digest, i: nat): State
    requires oid in s.entries && i < |s.entries[oid].placements|
  {
    s.(entries := s.entries[oid := s.entries[oid].(placements := Without(s.entries[oid].placements, i))])
  }

  lemma TakenEntriesOk(r: Rules, a: Registry, s: State, oid: Digest, i: nat)
    requires EntriesOk(r, a, s.entries, s.backends.Keys) && oid in s.entries && i < |s.entries[oid].placements|
    ensures EntriesOk(r, a, Taken(s, oid, i).entries, s.backends.Keys) && |Taken(s, oid, i).entries| == |s.entries|
  {
    hide DistinctTiers, PlacementOk;
    var e := s.entries[oid];
    assert EntryOk(r, s.backends.Keys, oid, a[oid], e);
    EntryWithout(r, s.backends.Keys, oid, a[oid], e, i);
    EntriesReplaced(r, a, s.entries, s.backends.Keys, oid, e.(placements := Without(e.placements, i)));
  }

  lemma TakenLinked(a: Registry, m: Registry, s: State, oid: Digest, i: nat)
    requires Linked(a, m, s.entries) && oid in s.entries && i < |s.entries[oid].placements|
    ensures Linked(a, m, Taken(s, oid, i).entries)
  {
    hide Without;
    if OnDisk in Without(s.entries[oid].placements, i) {
      WithoutAddsNothing(s.entries[oid].placements, i, OnDisk);
    }
  }

  lemma TakenPersisted(s: State, oid: Digest, i: nat)
    requires oid in s.entries && i < |s.entries[oid].placements|
    ensures StillPersisted(s.entries, Taken(s, oid, i).entries, if s.entries[oid].placements[i] == OnDisk then {oid}
      else {})
  {
    hide Without;
    var ps := s.entries[oid].placements;
    if ps[i] != OnDisk && OnDisk in ps {
      WithoutKeepsOthers(ps, i, OnDisk);
    }
  }

  /** Entry-level facts after a placement was taken out. */
  lemma TakenEntries(r: Rules, a: Registry, m: Registry, s: State, oid: Digest, i: nat)
    requires EntriesOk(r, a, s.entries, s.backends.Keys) && Linked(a, m, s.entries)
    requires oid in s.entries && i < |s.entries[oid].placements|
    ensures var s1 := Taken(s, oid, i);
      && EntriesOk(r, a, s1.entries, s.backends.Keys) && |s1.entries| == |s.entries| && Linked(a, m, s1.entries)
      && StillPersisted(s.entries, s1.entries, if s.entries[oid].placements[i] == OnDisk then {oid} else {})
      && TotalLoad(s.entries) == TotalLoad(s1.entries) + Load(s.entries[oid].blocks, s.entries[oid].placements[i])
  {
    hide EntriesOk, Linked, StillPersisted;
    TakenEntriesOk(r, a, s, oid, i);
    TakenLinked(a, m, s, oid, i);
    TakenPersisted(s, oid, i);
    TotalWithout(s.entries, oid, i);
  }

  lemma {:induction false} ReleaseKeepsBudget(arena: Arena, host: Budget, refs: seq<BlockRef>)
    ensures var h := ReleaseAll(arena, host, refs).1;
      h.capacity == host.capacity && h.reserved == host.reserved && h.used <= host.used
    decreases |refs|
  {
    if refs != [] {
      var (a1, freed) := Release(arena, refs[0].hash);
      ReleaseKeepsBudget(a1, if freed then SubUsed(host, refs[0].len).0 else host, refs[1..]);
    }
  }

  lemma KeptRemoveHost(r: Rules, a: Registry, m: Registry, s: State, oid: Digest, i: nat)
    requires StateOk(r, a, m, s) && oid in s.entries && i < |s.entries[oid].placements|
    requires s.entries[oid].placements[i].InHost?
    ensures var (arena, host, _) := ReleaseAll(s.arena, s.host, s.entries[oid].placements[i].refs);
      Kept(r, a, m, s, Taken(s, oid, i).(arena := arena, host := host), [], {})
  {
    hide EntriesOk, Linked, StillPersisted, DiskSound, HostOk, StoreOk, DeviceOk, Kept;
    var s1 := Taken(s, oid, i);
    var refs := s.entries[oid].placements[i].refs;
    var (arena, host, _) := ReleaseAll(s.arena, s.host, refs);
    TakenEntries(r, a, m, s, oid, i);
    HostReleased(r.content, r.known, s.arena, s.host, TotalLoad(s1.entries), refs);
    DevicesStoreIgnoreHost(s.backends, s.accelUsed, s.diskRefs, s.storageUsed, s.disk, TotalLoad(s1.entries), refs);
    HostLoadOnly(TotalLoad(s1.entries), refs);
    ReleaseKeepsBudget(s.arena, s.host, refs);
    KeptOffDisk(r, a, m, s, s1.(arena := arena, host := host));
  }

  lemma DeviceLoad(total: multiset<Item>, b: BackendId, data: Bytes, blocks: seq<BlockRef>)
    ensures var t := total + Load(blocks, OnDevice(b, data));
      && t[AnyDeviceByte] == total[AnyDeviceByte] + |data| && t[DeviceByte(b)] == total[DeviceByte(b)] + |data|
      && (forall c :: c != b ==> t[DeviceByte(c)] == total[DeviceByte(c)])
      && (forall h :: t[HostRef(h)] == total[HostRef(h)] && t[DiskRef(h)] == total[DiskRef(h)])
  {
  }

  lemma DeviceTaken(backends: map<BackendId, Backend>, accelUsed: nat, total: multiset<Item>, b: BackendId, data: Bytes,
                    blocks: seq<BlockRef>)
    requires DeviceOk(backends, accelUsed, total + Load(blocks, OnDevice(b, data))) && b in backends
    ensures DeviceOk(backends[b := backends[b].(inUse := SatSub(backends[b].inUse, |data|))], SatSub(accelUsed, |data|),
      total)
  {
    DeviceLoad(total, b, data, blocks);
  }

  lemma DeviceGiven(backends: map<BackendId, Backend>, accelUsed: nat, total: multiset<Item>, b: BackendId, data: Bytes,
                    blocks: seq<BlockRef>)
    requires DeviceOk(backends, accelUsed, total) && b in backends
    ensures DeviceOk(backends[b := backends[b].(inUse := backends[b].inUse + |data|)], accelUsed + |data|,
      total + Load(blocks, OnDevice(b, data)))
  {
    DeviceLoad(total, b, data, blocks);
  }

  lemma OthersIgnoreDevice(c: Content, known: iset<Bytes>, arena: Arena, total: multiset<Item>, b: BackendId,
                           data: Bytes, blocks: seq<BlockRef>)
    ensures HostOk(c, known, arena, total + Load(blocks, OnDevice(b, data))) <==> HostOk(c, known, arena, total)
    ensures forall h :: (total + Load(blocks, OnDevice(b, data)))[DiskRef(h)] == total[DiskRef(h)]
  {
    DeviceLoad(total, b, data, blocks);
  }

  lemma KeptRemoveDevice(r: Rules, a: Registry, m: Registry, s: State, oid: Digest, i: nat)
    requires StateOk(r, a, m, s) && oid in s.entries && i < |s.entries[oid].placements|
    requires s.entries[oid].placements[i].OnDevice?
    requires s.entries[oid].placements[i].backend in s.backends
    ensures var p := s.entries[oid].placements[i]; var x := RemoveFromDevice(Taken(s, oid, i), p.backend, |p.data|);
      x.result.Ok? && x.ops == [] && Kept(r, a, m, s, x.state, [], {})
  {
    hide EntriesOk, Linked, StillPersisted, DiskSound, HostOk, StoreOk, DeviceOk, Kept;
    var s1, e := Taken(s, oid, i), s.entries[oid];
    var p, t := e.placements[i], TotalLoad(Taken(s, oid, i).entries);
    TakenEntries(r, a, m, s, oid, i);
    var x := RemoveFromDevice(s1, p.backend, |p.data|);
    assert x.state.backends.Keys == s.backends.Keys;
    DeviceTaken(s.backends, s.accelUsed, t, p.backend, p.data, e.blocks);
    OthersIgnoreDevice(r.content, r.known, s.arena, t, p.backend, p.data, e.blocks);
    KeptOffDisk(r, a, m, s, x.state);
  }

  /** The references of a good entry carry the sizes of the block files. */
  lemma EntryFileSizes(cfg: Config, r: Rules, m: Registry, oid: Digest, obj: Object, refs: map<Digest, nat>, d: Disk)
    requires Serves(cfg, r) && r.good(oid, obj) && DiskSound(r, m, d)
    requires forall h :: h in refs ==> BlockFile(h) in d
    ensures TrueFileSizes(refs, d, r.blocks(obj))
  {
    assert Usable(cfg, r, oid, obj);
    var bs := r.blocks(obj);
    forall b | b in bs && b.hash in refs
      ensures b.len == |d[BlockFile(b.hash)]|
    {
      assert Describes(r.content, obj.payload, b) && Stretch(obj.payload, b) in r.known;
      assert BlockFile(b.hash) in d;
      assert d[BlockFile(b.hash)] == Stretch(obj.payload, b);
    }
  }

  /** The final manifest removal. */
  lemma RemoveManifestSteps(r: Rules, m: Registry, a: Registry, d: Disk, oid: Digest)
    requires DiskSound(r, m, d)
    ensures var ops := RemoveIfThere(d, ManifestFile(oid));
      && SafeRun(r, a, d, ops) && ApplyAll(d, ops) == d - {ManifestFile(oid)} && DescribedAfter(m, a, ops) == m - {oid}
      && DiskSound(r, m - {oid}, d - {ManifestFile(oid)})
      && forall p :: p != ManifestFile(oid) ==> Spares(ops, p)
  {
    var ops := RemoveIfThere(d, ManifestFile(oid));
    RemoveIfThereSafe(r, a, d, ManifestFile(oid));
    SafeRunSound(r, m, a, d, ops);
    if ManifestFile(oid) in d {
      assert ops[1..] == [];
    } else {
      assert oid !in m;
      assert m - {oid} == m;
    }
  }

  lemma StoreIgnoresManifest(refs: map<Digest, nat>, used: nat, d: Disk, total: multiset<Item>, oid: Digest)
    requires StoreOk(refs, used, d, total)
    ensures StoreOk(refs, used, d - {ManifestFile(oid)}, total)
  {
    assert FileSizes(refs, d - {ManifestFile(oid)}) == FileSizes(refs, d);
  }

  /** A persisted entry's blocks are counted in the total of the entries. */
  lemma PersistedBlocksCounted(entries: map<Digest, Entry>, oid: Digest, b: BlockRef)
    requires oid in entries && OnDisk in entries[oid].placements && b in entries[oid].blocks
    ensures TotalLoad(entries)[DiskRef(b.hash)] >= 1
  {
    var i :| 0 <= i < |entries[oid].placements| && entries[oid].placements[i] == OnDisk;
    TotalAboveEntry(entries, oid, i);
    TaggedHas(entries[oid].blocks, true, b);
  }

  lemma HostDevicesIgnoreDisk(c: Content, known: iset<Bytes>, arena: Arena, backends: map<BackendId, Backend>,
                              accelUsed: nat,
                              total: multiset<Item>, blocks: seq<BlockRef>)
    ensures HostOk(c, known, arena, total + Tagged(blocks, true)) <==> HostOk(c, known, arena, total)
    ensures DeviceOk(backends, accelUsed, total + Tagged(blocks, true)) <==> DeviceOk(backends, accelUsed, total)
  {
    DiskLoadOnly(total, blocks);
  }

  lemma KeptRemoveDisk(cfg: Config, r: Rules, a: Registry, m: Registry, s: State, oid: Digest, i: nat)
    requires StateOk(r, a, m, s) && cfg.hasStore
    requires oid in s.entries && i < |s.entries[oid].placements| && s.entries[oid].placements[i].OnDisk?
    requires DistinctTiers(s.entries[oid].placements) && TrueFileSizes(s.diskRefs, s.disk, s.entries[oid].blocks)
    ensures var x := RemoveFromDisk(cfg, Taken(s, oid, i), oid, s.entries[oid].blocks);
      x.result.Ok? && Kept(r, a, m, s, x.state, x.ops, {oid})
  {
    hide EntriesOk, Linked, StillPersisted, DiskSound, HostOk, StoreOk, DeviceOk, TrueFileSizes, SafeRun;
    hide SparesPersisted;
    var s1, e := Taken(s, oid, i), s.entries[oid];
    var t := TotalLoad(s1.entries);
    TakenEntries(r, a, m, s, oid, i);
    StoreDrop(r, m, a, s.diskRefs, s.storageUsed, s.disk, t, e.blocks);
    var drop := DropBlocks(s.diskRefs, s.storageUsed, s.disk, e.blocks);
    var d1 := ApplyAll(s.disk, drop.ops);
    RemoveManifestSteps(r, m, a, d1, oid);
    var ops := RemoveIfThere(d1, ManifestFile(oid));
    StoreIgnoresManifest(drop.refs, drop.used, d1, t, oid);
    RunConcat(r, m, a, s.disk, drop.ops, ops);
    HostDevicesIgnoreDisk(r.content, r.known, s.arena, s.backends, s.accelUsed, t, e.blocks);
    RemovedDiskSpares(s, s1.entries, oid, i, drop.ops, ops);
    RemovedDiskLinked(a, m, s, s1.entries, oid, i);
  }

  lemma RemovedDiskSpares(s: State, after: map<Digest, Entry>, oid: Digest, i: nat, x: seq<DiskOp>, y: seq<DiskOp>)
    requires oid in s.entries && i < |s.entries[oid].placements| && after == Taken(s, oid, i).entries
    requires forall h :: TotalLoad(after)[DiskRef(h)] >= 1 ==> Spares(x, BlockFile(h))
    requires forall o :: Spares(x, ManifestFile(o))
    requires forall p :: p != ManifestFile(oid) ==> Spares(y, p)
    ensures SparesPersisted(s.entries, x + y, {oid})
  {
    forall o | o in s.entries && o !in {oid} && OnDisk in s.entries[o].placements
      ensures Spares(x + y, ManifestFile(o)) && forall b :: b in s.entries[o].blocks ==>
        Spares(x + y, BlockFile(b.hash))
    {
      assert Spares(x, ManifestFile(o)) && Spares(y, ManifestFile(o));
      forall b | b in s.entries[o].blocks
        ensures Spares(x + y, BlockFile(b.hash))
      {
        PersistedBlocksCounted(after, o, b);
        assert Spares(x, BlockFile(b.hash)) && Spares(y, BlockFile(b.hash));
      }
    }
  }

  lemma RemovedDiskLinked(a: Registry, m: Registry, s: State, after: map<Digest, Entry>, oid: Digest, i: nat)
    requires Linked(a, m, s.entries) && oid in s.entries && i < |s.entries[oid].placements|
    requires after == Taken(s, oid, i).entries
    requires s.entries[oid].placements[i] == OnDisk && DistinctTiers(s.entries[oid].placements)
    ensures Linked(a, m - {oid}, after)
  {
    var ps := s.entries[oid].placements;
    assert forall j :: 0 <= j < |ps| && j != i ==> TierOf(ps[j]) != P.Persistent;
    assert OnDisk !in Without(ps, i);
  }

  // ---- Adding ------------------------------------------------------------------------------

  lemma PushedEntriesOk(r: Rules, a: Registry, s: State, oid: Digest, p: Placement)
    requires EntriesOk(r, a, s.entries, s.backends.Keys) && oid in s.entries && !HasTier(s.entries[oid], TierOf(p))
    requires PlacementOk(r.hasStore, s.backends.Keys, a[oid], s.entries[oid].blocks, p)
    ensures EntriesOk(r, a, Push(s, oid, p).entries, s.backends.Keys) && |Push(s, oid, p).entries| == |s.entries|
  {
    hide DistinctTiers;
    var e := s.entries[oid];
    assert EntryOk(r, s.backends.Keys, oid, a[oid], e);
    EntryPushed(r, s.backends.Keys, oid, a[oid], e, p);
    EntriesReplaced(r, a, s.entries, s.backends.Keys, oid, e.(placements := e.placements + [p]));
  }

  lemma PushedLinked(a: Registry, m: Registry, s: State, oid: Digest, p: Placement)
    requires Linked(a, m, s.entries) && oid in s.entries && oid in a
    ensures Linked(a, if p == OnDisk then m[oid := a[oid]] else m, Push(s, oid, p).entries)
    ensures StillPersisted(s.entries, Push(s, oid, p).entries, {})
  {
    var ps := s.entries[oid].placements;
    assert OnDisk in ps + [p] <==> OnDisk in ps || OnDisk == p;
  }

  /** Entry-level facts after a placement was pushed. */
  lemma PushedEntries(r: Rules, a: Registry, m: Registry, s: State, oid: Digest, p: Placement)
    requires EntriesOk(r, a, s.entries, s.backends.Keys) && Linked(a, m, s.entries)
    requires oid in s.entries && !HasTier(s.entries[oid], TierOf(p))
    requires oid in a && PlacementOk(r.hasStore, s.backends.Keys, a[oid], s.entries[oid].blocks, p)
    ensures var after := Push(s, oid, p).entries;
      && EntriesOk(r, a, after, s.backends.Keys) && |after| == |s.entries|
      && Linked(a, if p == OnDisk then m[oid := a[oid]] else m, after)
      && StillPersisted(s.entries, after, {})
      && TotalLoad(after) == TotalLoad(s.entries) + Load(s.entries[oid].blocks, p)
  {
    hide EntriesOk, Linked, StillPersisted;
    PushedEntriesOk(r, a, s, oid, p);
    PushedLinked(a, m, s, oid, p);
    TotalPush(s.entries, oid, p);
  }

  lemma DevicesStoreIgnoreHost(backends: map<BackendId, Backend>, accelUsed: nat, refs: map<Digest, nat>, used: nat,
                               d: Disk,
                               total: multiset<Item>, blocks: seq<BlockRef>)
    ensures DeviceOk(backends, accelUsed, total + Tagged(blocks, false)) <==> DeviceOk(backends, accelUsed, total)
    ensures StoreOk(refs, used, d, total + Tagged(blocks, false)) <==> StoreOk(refs, used, d, total)
  {
    HostLoadOnly(total, blocks);
  }

  lemma KeptAddHost(cfg: Config, r: Rules, a: Registry, m: Registry, s: State, oid: Digest)
    requires r.content == cfg.content && NoCollision(r.content, r.known) && StateOk(r, a, m, s)
    requires oid in s.entries && oid in a && !HasTier(s.entries[oid], P.Host)
    requires Usable(cfg, r, oid, a[oid]) && s.entries[oid].blocks == r.blocks(a[oid])
    ensures var x := AddHost(cfg, s, oid, a[oid].payload);
      && x.ops == [] && Kept(r, a, m, s, x.state, [], {})
      && (x.result.Err? ==> x.state == s && x.result.error == AdmissionRejected)
      && (x.result.Ok? ==> x.state.entries == Push(s, oid, InHost(s.entries[oid].blocks)).entries)
  {
    hide EntriesOk, Linked, StillPersisted, DiskSound, HostOk, StoreOk, DeviceOk, Consistent, NoCollision, Kept;
    var obj := a[oid];
    var bs := r.blocks(obj);
    var charge := Charged(s.arena.blocks.Keys, bs);
    if charge <= Free(s.host) {
      ReservationCommits(s.host, charge);
      PushedEntries(r, a, m, s, oid, InHost(bs));
      HostAcquired(r.content, r.known, s.arena, TotalLoad(s.entries), obj.payload, bs);
      DevicesStoreIgnoreHost(s.backends, s.accelUsed, s.diskRefs, s.storageUsed, s.disk, TotalLoad(s.entries), bs);
      HostLoadOnly(TotalLoad(s.entries), bs);
      KeptOffDisk(r, a, m, s, AddHost(cfg, s, oid, obj.payload).state);
    } else {
      KeptTrivially(r, a, m, s, {});
    }
  }

  lemma KeptAddDevice(r: Rules, a: Registry, m: Registry, s: State, oid: Digest, b: BackendId)
    requires StateOk(r, a, m, s) && oid in s.entries && oid in a && !HasTier(s.entries[oid], P.Accelerator(b))
    ensures var x := AddDevice(s, oid, b, a[oid].payload);
      && x.ops == [] && Kept(r, a, m, s, x.state, [], {}) && (x.result.Err? ==> x.state == s)
      && (x.result.Ok? ==> x.state.entries == Push(s, oid, OnDevice(b, a[oid].payload)).entries)
  {
    hide EntriesOk, Linked, StillPersisted, DiskSound, HostOk, StoreOk, DeviceOk, HasTier, Kept, Load, TotalLoad;
    var data, e := a[oid].payload, s.entries[oid];
    var x := AddDevice(s, oid, b, data);
    if x.result.Ok? {
      PushedEntries(r, a, m, s, oid, OnDevice(b, data));
      assert x.state.backends.Keys == s.backends.Keys;
      assert TotalLoad(x.state.entries) == TotalLoad(s.entries) + Load(e.blocks, OnDevice(b, data));
      DeviceGiven(s.backends, s.accelUsed, TotalLoad(s.entries), b, data, e.blocks);
      OthersIgnoreDevice(r.content, r.known, s.arena, TotalLoad(s.entries), b, data, e.blocks);
      KeptOffDisk(r, a, m, s, x.state);
    } else {
      KeptTrivially(r, a, m, s, {});
    }
  }
}

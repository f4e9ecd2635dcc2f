/** Whole operations, and whole runs with crashes at any point. */
module CacheRuns {
  import opened Prelude
  import opened Accounting
  import opened BlockArena
  import opened Compat
  import opened CacheSpec
  import opened CacheLoads
  import opened DiskSafety
  import opened CacheInvariant
  import opened CacheSteps
  import opened CacheKept
  import opened CacheOperations
  import P = Planner

  // ---- Operations --------------------------------------------------------------------------

  datatype Op =
    | DoRegister(address: Address, compat: CompatKey, payload: Bytes)
    | DoLookup(address: Address, compat: CompatKey)
    | DoRestore(oid: Digest, tier: Tier)
    | DoPromote(oid: Digest, tier: Tier)
    | DoDemote(oid: Digest, tier: Tier)
    | DoPersist(oid: Digest)
    | DoEvict(oid: Digest)
    | DoDelete(oid: Digest)

  datatype Answer = Named(oid: Digest) | Payload(bytes: Bytes) | Done

  function Erase<T>(x: Effect<T>, f: T -> Answer): Effect<Answer> {
    Effect(x.state, x.ops, if x.result.Ok? then Ok(f(x.result.value)) else Err(x.result.error))
  }

  ghost function Step(cfg: Config, s: State, op: Op, now: u64): Effect<Answer> {
    match op
    case DoRegister(a, k, payload) => Erase(Register(cfg, s, a, k, payload, now), o => Named(o))
    case DoLookup(a, k) => Erase(Lookup(cfg, s, a, k, now), o => Named(o))
    case DoRestore(oid, t) => Erase(Restore(cfg, s, oid, t, now), b => Payload(b))
    case DoPromote(oid, t) => Erase(Promote(cfg, s, oid, t, now), _ => Done)
    case DoDemote(oid, t) => Erase(Demote(cfg, s, oid, t), _ => Done)
    case DoPersist(oid) => Erase(Persist(cfg, s, oid), _ => Done)
    case DoEvict(oid) => Erase(Evict(cfg, s, oid), _ => Done)
    case DoDelete(oid) => Erase(Delete(cfg, s, oid), _ => Done)
  }

  /** The write-once map underneath: only a successful registration or deletion changes it. */
  function AbstractStep(cfg: Config, a: Registry, op: Op, now: u64, ok: bool): Registry {
    if !ok then a
    else
      match op
      case DoRegister(address, compat, payload) => a[cfg.name(address) := Object(address, compat, payload, now)]
      case DoDelete(oid) => a - {oid}
      case _ => a
  }

  /** The object whose persistence an operation may end. */
  function Gone(op: Op): set<Digest> {
    if op.DoDelete? then {op.oid} else {}
  }

  /** A registration that passes its own checks registers a well-formed object. */
  ghost predicate OpOk(cfg: Config, r: Rules, op: Op, now: u64) {
    op.DoRegister? && CheckPayload(cfg, op.compat, op.payload).Ok? ==>
      r.good(cfg.name(op.address), Object(op.address, op.compat, op.payload, now))
  }

  /** What every operation guarantees, as a whole and at each of its file-system steps. */
  ghost predicate StepKept(r: Rules, a: Registry, a': Registry, m: Registry, s: State, s': State, ops: seq<DiskOp>,
                           gone: set<Digest>) {
    && StateOk(r, a', DescribedAfter(m, a, ops), s')
    && s'.disk == ApplyAll(s.disk, ops) && SafeRun(r, a, s.disk, ops) && SparesPersisted(s.entries, ops, gone)
  }

  lemma KeptIsStepKept(r: Rules, a: Registry, m: Registry, s: State, s': State, ops: seq<DiskOp>, gone: set<Digest>)
    requires Kept(r, a, m, s, s', ops, gone)
    ensures StepKept(r, a, a, m, s, s', ops, gone)
  {
    hide StateOk, SafeRun, SparesPersisted, StillPersisted;
  }

  // ---- Register ----------------------------------------------------------------------------

  lemma CheckedObject(cfg: Config, r: Rules, a: Address, k: CompatKey, payload: Bytes, now: u64)
    requires Serves(cfg, r) && CheckPayload(cfg, k, payload).Ok? && r.good(cfg.name(a), Object(a, k, payload, now))
    ensures var (blocks, numel) := CheckPayload(cfg, k, payload).value; var obj := Object(a, k, payload, now);
      && Usable(cfg, r, cfg.name(a), obj) && r.blocks(obj) == blocks && r.count(obj) == numel
      && r.length(obj) == |payload|
  {
    assert Usable(cfg, r, cfg.name(a), Object(a, k, payload, now));
  }

  /** Storing an object's blocks and inserting its entry. */
  lemma KeptInsert(cfg: Config, r: Rules, a: Registry, m: Registry, s: State, oid: Digest, obj: Object, e: Entry,
                   s': State)
    requires Serves(cfg, r) && StateOk(r, a, m, s) && oid !in s.entries && r.good(oid, obj) && Usable(cfg, r, oid, obj)
    requires EntryOk(r, s.backends.Keys, oid, obj, e) && e.placements == [InHost(e.blocks)]
    requires Charged(s.arena.blocks.Keys, e.blocks) >= 0 && Sound(s'.host) && s'.host.reserved == 0
    requires s' == s.(arena := AcquireAll(cfg.content, s.arena, obj.payload, e.blocks), host := s'.host,
                      entries := s.entries[oid := e], objectCount := s.objectCount + 1)
    ensures StateOk(r, a[oid := obj], m, s')
  {
    hide EntriesOk, EntryOk, Linked, DiskSound, HostOk, StoreOk, DeviceOk, TotalLoad, AcquireAll, NoCollision;
    EntriesInserted(r, a, s.entries, s.backends.Keys, oid, obj, e);
    assert OnDisk !in e.placements;
    LinkedInserted(a, m, s.entries, oid, obj, e);
    TotalInserted(s.entries, oid, e, InHost(e.blocks));
    assert e.blocks == r.blocks(obj) by { EntryBlocks(r, s.backends.Keys, oid, obj, e); }
    HostAcquired(r.content, r.known, s.arena, TotalLoad(s.entries), obj.payload, e.blocks);
    DevicesStoreIgnoreHost(s.backends, s.accelUsed, s.diskRefs, s.storageUsed, s.disk, TotalLoad(s.entries), e.blocks);
  }

  lemma EntryBlocks(r: Rules, backends: set<BackendId>, oid: Digest, obj: Object, e: Entry)
    requires EntryOk(r, backends, oid, obj, e)
    ensures e.blocks == r.blocks(obj)
  {
  }

  lemma NewEntryOk(cfg: Config, r: Rules, backends: set<BackendId>, a: Address, k: CompatKey, payload: Bytes, now: u64)
    requires Serves(cfg, r) && CheckPayload(cfg, k, payload).Ok? && r.good(cfg.name(a), Object(a, k, payload, now))
    ensures var (blocks, numel) := CheckPayload(cfg, k, payload).value;
      var e := NewEntry(cfg, a, k, payload, numel, blocks, now);
      EntryOk(r, backends, cfg.name(a), Object(a, k, payload, now), e) && e.placements == [InHost(e.blocks)]
        && e.blocks == blocks
  {
    CheckedObject(cfg, r, a, k, payload, now);
  }

  lemma KeptRegister(cfg: Config, r: Rules, a: Registry, m: Registry, s: State, address: Address, k: CompatKey,
                     payload: Bytes, now: u64)
    requires Serves(cfg, r) && StateOk(r, a, m, s) && OpOk(cfg, r, DoRegister(address, k, payload), now)
    ensures var x := Register(cfg, s, address, k, payload, now);
      && StepKept(r, a, AbstractStep(cfg, a, DoRegister(address, k, payload), now, x.result.Ok?), m, s, x.state, x.ops,
         {})
      && (x.result.Ok? ==> x.result.value == cfg.name(address) && cfg.name(address) !in a)
  {
    hide Serves, StateOk, StepKept, StoreBlocks, EvictToFree, EnforceCapacity, CheckPayload, NewEntry, Admits, Charged;
    var oid := cfg.name(address);
    KeptTrivially(r, a, m, s, {});
    KeptIsStepKept(r, a, m, s, s, [], {});
    EntryKeys(r, a, m, s);
    if CheckPayload(cfg, k, payload).Ok? && oid !in s.entries && Admits(cfg, |payload|) {
      var charge := Charged(s.arena.blocks.Keys, CheckPayload(cfg, k, payload).value.0);
      var s1 := if charge > Free(s.host) then EvictToFree(cfg, s, charge, now) else s;
      RoomMade(cfg, r, a, m, s, charge, now);
      KeptIsStepKept(r, a, m, s, s1, [], {});
      if charge <= Free(s1.host) {
        RegisterEnds(cfg, r, a, m, s, s1, address, k, payload, charge, now);
      }
    }
  }

  /** The second half of a registration, once there is room. */
  lemma RegisterEnds(cfg: Config, r: Rules, a: Registry, m: Registry, s: State, s1: State, address: Address,
                     k: CompatKey, payload: Bytes, charge: nat, now: u64)
    requires Serves(cfg, r) && StateOk(r, a, m, s) && OpOk(cfg, r, DoRegister(address, k, payload), now)
    requires CheckPayload(cfg, k, payload).Ok? && cfg.name(address) !in s.entries && Admits(cfg, |payload|)
    requires charge == Charged(s.arena.blocks.Keys, CheckPayload(cfg, k, payload).value.0)
    requires s1 == (if charge > Free(s.host) then EvictToFree(cfg, s, charge, now) else s) && charge <= Free(s1.host)
    requires Kept(r, a, m, s, s1, [], {})
    ensures var x := Register(cfg, s, address, k, payload, now);
      && x.result == Ok(cfg.name(address)) && x.ops == [] && cfg.name(address) !in a
      && StepKept(r, a, a[cfg.name(address) := Object(address, k, payload, now)], m, s, x.state, [], {})
  {
    hide Serves, StateOk, StepKept, Kept, StoreBlocks, EvictToFree, EnforceCapacity, CheckPayload, NewEntry, Admits;
    hide Charged, Register;
    var oid, obj := cfg.name(address), Object(address, k, payload, now);
    var (blocks, numel) := CheckPayload(cfg, k, payload).value;
    KeptState(r, a, m, s, s1, [], {});
    EntryKeys(r, a, m, s);
    EntryKeys(r, a, m, s1);
    RegisterStores(cfg, r, a, m, s1, address, k, payload, charge, now);
    RegisterUnfolds(cfg, s, address, k, payload, now);
    var s2 := StoreBlocks(cfg, s1, payload, blocks, charge).0;
    var s3 := s2.(entries := s2.entries[oid := NewEntry(cfg, address, k, payload, numel, blocks, now)],
      objectCount := s2.objectCount + 1);
    EnforceCapacityIsIdle(cfg, r, a[oid := obj], m, s3, now);
    RegisterAssembles(r, a, m, s, s1, s3, oid, obj);
  }

  lemma EntryKeys(r: Rules, a: Registry, m: Registry, s: State)
    requires StateOk(r, a, m, s)
    ensures s.entries.Keys == a.Keys && Sound(s.host) && s.host.reserved == 0
  {
    hide EntryOk, Linked, DiskSound, HostOk, StoreOk, DeviceOk;
  }

  lemma RoomMade(cfg: Config, r: Rules, a: Registry, m: Registry, s: State, charge: nat, now: u64)
    requires Serves(cfg, r) && StateOk(r, a, m, s)
    ensures Kept(r, a, m, s, if charge > Free(s.host) then EvictToFree(cfg, s, charge, now) else s, [], {})
  {
    hide Serves, StateOk, Kept, EvictInOrder, EvictionList;
    KeptTrivially(r, a, m, s, {});
    KeptEvictInOrder(cfg, r, a, m, s, EvictionList(cfg, now, s), FreeAtLeast(charge));
  }

  lemma RegisterStores(cfg: Config, r: Rules, a: Registry, m: Registry, s: State, address: Address, k: CompatKey,
                       payload: Bytes, charge: nat, now: u64)
    requires Serves(cfg, r) && StateOk(r, a, m, s) && CheckPayload(cfg, k, payload).Ok?
    requires cfg.name(address) !in s.entries
    requires r.good(cfg.name(address), Object(address, k, payload, now)) && charge <= Free(s.host)
    ensures var (blocks, numel) := CheckPayload(cfg, k, payload).value; var oid := cfg.name(address);
      Inside(payload, blocks) &&
      var (s2, ok) := StoreBlocks(cfg, s, payload, blocks, charge);
      && ok && s2.host == s.host.(used := s.host.used + charge) && s2.entries == s.entries && s2.disk == s.disk
      && StateOk(r, a[oid := Object(address, k, payload, now)], m,
                 s2.(entries := s2.entries[oid := NewEntry(cfg, address, k, payload, numel, blocks, now)],
                   objectCount := s2.objectCount + 1))
  {
    hide Serves, StateOk, Usable, EntryOk, NewEntry, AcquireAll, CheckPayload;
    var (blocks, numel) := CheckPayload(cfg, k, payload).value;
    var oid, obj := cfg.name(address), Object(address, k, payload, now);
    EntryKeys(r, a, m, s);
    CheckedObject(cfg, r, address, k, payload, now);
    UsableBlocks(cfg, r, oid, obj);
    ReservationCommits(s.host, charge);
    NewEntryOk(cfg, r, s.backends.Keys, address, k, payload, now);
    var e := NewEntry(cfg, address, k, payload, numel, blocks, now);
    var (s2, ok) := StoreBlocks(cfg, s, payload, blocks, charge);
    KeptInsert(cfg, r, a, m, s, oid, obj, e, s2.(entries := s2.entries[oid := e], objectCount := s2.objectCount + 1));
  }

  /** The successful path of a registration, spelled out. */
  lemma RegisterUnfolds(cfg: Config, s: State, address: Address, k: CompatKey, payload: Bytes, now: u64)
    requires CheckPayload(cfg, k, payload).Ok? && cfg.name(address) !in s.entries && Admits(cfg, |payload|)
    requires Inside(payload, CheckPayload(cfg, k, payload).value.0)
    ensures var (blocks, numel) := CheckPayload(cfg, k, payload).value;
      var charge := Charged(s.arena.blocks.Keys, blocks);
      var s1 := if charge > Free(s.host) then EvictToFree(cfg, s, charge, now) else s;
      var (s2, ok) := StoreBlocks(cfg, s1, payload, blocks, charge);
      charge <= Free(s1.host) && ok ==>
        Register(cfg, s, address, k, payload, now) ==
          Effect(EnforceCapacity(cfg,
            s2.(entries := s2.entries[cfg.name(address) := NewEntry(cfg, address, k, payload, numel, blocks, now)],
                                          objectCount := s2.objectCount + 1), now), [], Ok(cfg.name(address)))
  {
    hide CheckPayload, Admits, StoreBlocks, EvictToFree, EnforceCapacity, NewEntry, Charged;
  }

  lemma RegisterTouchesNoFile(cfg: Config, s: State, address: Address, k: CompatKey, payload: Bytes, now: u64)
    ensures Register(cfg, s, address, k, payload, now).ops == []
  {
    hide CheckPayload, Admits, StoreBlocks, EvictToFree, EnforceCapacity, NewEntry, Charged;
  }

  lemma RegisterAssembles(r: Rules, a: Registry, m: Registry, s: State, s1: State, s3: State, oid: Digest, obj: Object)
    requires Kept(r, a, m, s, s1, [], {}) && StateOk(r, a[oid := obj], m, s3) && s3.disk == s1.disk
    ensures StepKept(r, a, a[oid := obj], m, s, s3, [], {})
  {
    hide StateOk;
  }

  // ---- Delete ------------------------------------------------------------------------------

  lemma EmptyEntryDropped(r: Rules, a: Registry, m: Registry, s: State, oid: Digest)
    requires StateOk(r, a, m, s) && oid in s.entries && s.entries[oid].placements == []
    ensures StateOk(r, a - {oid}, m, s.(entries := s.entries - {oid}, objectCount := s.objectCount - 1))
  {
    hide DiskSound, HostOk, StoreOk, DeviceOk, EntryOk, TotalLoad;
    var after := s.entries - {oid};
    TotalDrop(s.entries, oid);
    assert LoadAt(s.entries, oid) == multiset{};
    assert after.Keys == s.entries.Keys - {oid};
    assert |after.Keys| == |s.entries.Keys| - 1;
    assert TotalLoad(after) == TotalLoad(s.entries);
    forall o | o in after
      ensures EntryOk(r, s.backends.Keys, o, (a - {oid})[o], after[o])
    {
      assert EntryOk(r, s.backends.Keys, o, a[o], s.entries[o]);
    }
    assert Linked(a - {oid}, m, after);
  }

  lemma ManifestDropped(r: Rules, a: Registry, m: Registry, s: State, oid: Digest)
    requires StateOk(r, a, m, s) && oid !in s.entries
    ensures var ops := RemoveIfThere(s.disk, ManifestFile(oid));
      && SafeRun(r, a, s.disk, ops) && (forall p :: p != ManifestFile(oid) ==> Spares(ops, p))
      && StateOk(r, a, DescribedAfter(m, a, ops), s.(disk := ApplyAll(s.disk, ops)))
  {
    hide EntriesOk, DiskSound, HostOk, StoreOk, DeviceOk, SafeRun, Linked, TotalLoad, RemoveIfThere, ApplyAll;
    hide DescribedAfter, Spares;
    RemoveManifestSteps(r, m, a, s.disk, oid);
    StoreIgnoresManifest(s.diskRefs, s.storageUsed, s.disk, TotalLoad(s.entries), oid);
    LinkedWithout(a, m, s.entries, oid);
  }

  lemma LinkedWithout(a: Registry, m: Registry, entries: map<Digest, Entry>, oid: Digest)
    requires Linked(a, m, entries) && oid !in entries
    ensures Linked(a, m - {oid}, entries)
  {
  }

  lemma AllStripped(ps: seq<Placement>)
    requires DistinctTiers(ps)
    ensures Stripped(ps, Tiers(ps)) == []
  {
    var qs := Stripped(ps, Tiers(ps));
    if qs != [] {
      StrippedMembers(ps, Tiers(ps), qs[0]);
      TiersMembers(ps, TierOf(qs[0]));
    }
  }

  /**
   * A file-step list that does not name other objects' manifests describes the same with or without `oid` registered.
   */
  lemma {:induction false} DescribedIgnores(m: Registry, a: Registry, ops: seq<DiskOp>, oid: Digest)
    requires forall i :: 0 <= i < |ops| ==> !ops[i].Rename?
    ensures DescribedAfter(m, a, ops) == DescribedAfter(m, a - {oid}, ops)
    decreases |ops|
  {
    if ops != [] {
      DescribedIgnores(Described(m, a, ops[0]), a, ops[1..], oid);
    }
  }

  lemma KeptDelete(cfg: Config, r: Rules, a: Registry, m: Registry, s: State, oid: Digest)
    requires Serves(cfg, r) && StateOk(r, a, m, s)
    ensures var x := Delete(cfg, s, oid);
      StepKept(r, a, if x.result.Ok? then a - {oid} else a, m, s, x.state, x.ops, {oid})
  {
    hide Serves, StateOk, StepKept, Kept, RemoveTiers, EntryOk, SafeRun;
    if oid !in s.entries {
      KeptTrivially(r, a, m, s, {oid});
      KeptIsStepKept(r, a, m, s, s, [], {oid});
    } else {
      var tiers := Tiers(s.entries[oid].placements);
      var y := RemoveTiers(cfg, s, oid, tiers, true);
      KeptRemoveTiers(cfg, r, a, m, s, oid, tiers, true);
      if P.Persistent !in tiers {
        KeptWeaken(r, a, m, s, y.state, y.ops, {oid});
      }
      KeptIsStepKept(r, a, m, s, y.state, y.ops, {oid});
      if y.result.Ok? {
        DeleteEnds(cfg, r, a, m, s, oid, y);
      }
    }
  }

  lemma DistinctOf(r: Rules, a: Registry, m: Registry, s: State, oid: Digest)
    requires StateOk(r, a, m, s) && oid in s.entries
    ensures DistinctTiers(s.entries[oid].placements) && s.objectCount == |s.entries| > 0
  {
    hide Linked, DiskSound, HostOk, StoreOk, DeviceOk, DistinctTiers;
    assert oid in s.entries.Keys;
  }

  lemma DeleteEnds(cfg: Config, r: Rules, a: Registry, m: Registry, s: State, oid: Digest, y: Effect<()>)
    requires Serves(cfg, r) && StateOk(r, a, m, s) && oid in s.entries
    requires y == RemoveTiers(cfg, s, oid, Tiers(s.entries[oid].placements), true) && y.result.Ok?
    requires Kept(r, a, m, s, y.state, y.ops, {oid})
    ensures var x := Delete(cfg, s, oid); x.result.Ok? && StepKept(r, a, a - {oid}, m, s, x.state, x.ops, {oid})
  {
    hide Serves, StateOk, Kept, RemoveTiers, EntryOk, SafeRun, DistinctTiers, SparesPersisted, StillPersisted, Stripped;
    var m1 := DescribedAfter(m, a, y.ops);
    KeptState(r, a, m, s, y.state, y.ops, {oid});
    DistinctOf(r, a, m, s, oid);
    RemoveTiersShape(cfg, s, oid, Tiers(s.entries[oid].placements), true);
    AllStripped(s.entries[oid].placements);
    assert y.state.entries[oid].placements == [];
    DistinctOf(r, a, m1, y.state, oid);
    EmptyEntryDropped(r, a, m1, y.state, oid);
    var s2 := y.state.(entries := y.state.entries - {oid}, objectCount := y.state.objectCount - 1);
    var none: seq<DiskOp> := [];
    if cfg.hasStore {
      ManifestDropped(r, a - {oid}, m1, s2, oid);
      DeleteRunsOn(r, a, m, s, oid, y.ops, s2);
    } else {
      assert y.ops + none == y.ops;
    }
  }

  lemma DeleteRunsOn(r: Rules, a: Registry, m: Registry, s: State, oid: Digest, x: seq<DiskOp>, s2: State)
    requires SafeRun(r, a, s.disk, x) && s2.disk == ApplyAll(s.disk, x) && SparesPersisted(s.entries, x, {oid})
    requires DiskSound(r, DescribedAfter(m, a, x), s2.disk)
    requires var ops := RemoveIfThere(s2.disk, ManifestFile(oid));
      StateOk(r, a - {oid}, DescribedAfter(DescribedAfter(m, a, x), a - {oid}, ops),
        s2.(disk := ApplyAll(s2.disk, ops)))
    ensures var ops := RemoveIfThere(s2.disk, ManifestFile(oid));
      StepKept(r, a, a - {oid}, m, s, s2.(disk := ApplyAll(s2.disk, ops)), x + ops, {oid})
  {
    hide StateOk, SafeRun;
    var ops := RemoveIfThere(s2.disk, ManifestFile(oid));
    RemoveManifestSteps(r, DescribedAfter(m, a, x), a, s2.disk, oid);
    RunConcat(r, m, a, s.disk, x, ops);
    DescribedIgnores(DescribedAfter(m, a, x), a, ops, oid);
    forall o | o in s.entries && o !in {oid} && OnDisk in s.entries[o].placements
      ensures Spares(x + ops, ManifestFile(o)) && forall b :: b in s.entries[o].blocks ==>
        Spares(x + ops, BlockFile(b.hash))
    {
      assert Spares(x, ManifestFile(o)) && Spares(ops, ManifestFile(o));
      forall b | b in s.entries[o].blocks
        ensures Spares(x + ops, BlockFile(b.hash))
      {
        assert Spares(x, BlockFile(b.hash)) && Spares(ops, BlockFile(b.hash));
      }
    }
  }

  // ---- The other operations ----------------------------------------------------------------

  /** Changing an entry's bookkeeping, not its placements. */
  lemma KeptBookkeeping(r: Rules, a: Registry, m: Registry, s: State, oid: Digest, e: Entry)
    requires StateOk(r, a, m, s) && oid in s.entries
    requires e == s.entries[oid].(lastUseNs := e.lastUseNs, reuseCount := e.reuseCount, durable := e.durable)
    ensures Kept(r, a, m, s, s.(entries := s.entries[oid := e]), [], {})
  {
    hide DiskSound, HostOk, StoreOk, DeviceOk, TotalLoad, Kept, EntriesOk, Linked, StillPersisted;
    BookkeepingEntries(r, a, m, s.entries, s.backends.Keys, oid, e);
    TotalSame(s.entries, oid, e);
    KeptOffDisk(r, a, m, s, s.(entries := s.entries[oid := e]));
  }

  lemma BookkeepingEntries(r: Rules, a: Registry, m: Registry, entries: map<Digest, Entry>, backends: set<BackendId>,
                           oid: Digest, e: Entry)
    requires EntriesOk(r, a, entries, backends) && Linked(a, m, entries) && oid in entries
    requires e == entries[oid].(lastUseNs := e.lastUseNs, reuseCount := e.reuseCount, durable := e.durable)
    ensures var after := entries[oid := e];
      EntriesOk(r, a, after, backends) && Linked(a, m, after) && StillPersisted(entries, after, {})
        && |after| == |entries|
  {
    hide DistinctTiers, PlacementOk;
    assert EntryOk(r, backends, oid, a[oid], entries[oid]);
    EntriesReplaced(r, a, entries, backends, oid, e);
  }

  lemma KeptLookup(cfg: Config, r: Rules, a: Registry, m: Registry, s: State, address: Address, k: CompatKey, now: u64)
    requires StateOk(r, a, m, s)
    ensures var x := Lookup(cfg, s, address, k, now); x.ops == [] && Kept(r, a, m, s, x.state, [], {})
  {
    hide StateOk, Kept;
    KeptTrivially(r, a, m, s, {});
    var oid := cfg.name(address);
    if oid in s.entries {
      KeptBookkeeping(r, a, m, s, oid,
        s.entries[oid].(reuseCount := SatAdd(s.entries[oid].reuseCount, 1), lastUseNs := now));
    }
  }

  /** A restore that succeeds returns the registered payload, whatever tier it came from. */
  lemma KeptRestore(cfg: Config, r: Rules, a: Registry, m: Registry, s: State, oid: Digest, t: Tier, now: u64)
    requires Serves(cfg, r) && StateOk(r, a, m, s)
    ensures var x := Restore(cfg, s, oid, t, now);
      && Kept(r, a, m, s, x.state, x.ops, {})
      && (x.result.Ok? ==> oid in a && x.result.value == a[oid].payload)
  {
    hide StateOk, Kept, Serves, AddPlacement, Materialize, EnforceCapacity;
    KeptTrivially(r, a, m, s, {});
    EntryKeys(r, a, m, s);
    if oid in s.entries && !s.entries[oid].quarantined {
      MaterializeYieldsPayload(cfg, r, a, m, s, oid);
      if s.entries[oid].placements != [] {
        EnforceCapacityIsIdle(cfg, r, a, m, s, now);
        if !HasTier(s.entries[oid], t) {
          KeptAddPlacement(cfg, r, a, m, s, oid, t);
          var x := AddPlacement(cfg, s, oid, t, a[oid].payload);
          KeptState(r, a, m, s, x.state, x.ops, {});
          EnforceCapacityIsIdle(cfg, r, a, DescribedAfter(m, a, x.ops), x.state, now);
        }
      }
    }
  }

  lemma KeptPromote(cfg: Config, r: Rules, a: Registry, m: Registry, s: State, oid: Digest, t: Tier, now: u64)
    requires Serves(cfg, r) && StateOk(r, a, m, s)
    ensures var x := Promote(cfg, s, oid, t, now); Kept(r, a, m, s, x.state, x.ops, {})
  {
    hide StateOk, Kept, Serves, Restore;
    KeptTrivially(r, a, m, s, {});
    KeptRestore(cfg, r, a, m, s, oid, t, now);
  }

  /** A demotion never loses the object: the lower copy is there before the faster one is given up. */
  lemma KeptDemote(cfg: Config, r: Rules, a: Registry, m: Registry, s: State, oid: Digest, from: Tier)
    requires Serves(cfg, r) && StateOk(r, a, m, s)
    ensures var x := Demote(cfg, s, oid, from);
      && Kept(r, a, m, s, x.state, x.ops, {})
      && (oid in s.entries && s.entries[oid].placements != [] ==>
         oid in x.state.entries && x.state.entries[oid].placements != [])
  {
    hide StateOk, Kept, Serves, Ensure, RemovePlacement;
    KeptTrivially(r, a, m, s, {});
    if oid in s.entries && HasTier(s.entries[oid], from) && NextLower(from).Ok? {
      var target := NextLower(from).value;
      var x := Ensure(cfg, s, oid, target);
      KeptEnsure(cfg, r, a, m, s, oid, target);
      KeptState(r, a, m, s, x.state, x.ops, {});
      if x.result.Ok? {
        var m1 := DescribedAfter(m, a, x.ops);
        KeptRemovePlacement(cfg, r, a, m1, x.state, oid, from);
        var y := RemovePlacement(cfg, x.state, oid, from);
        KeptConcat(r, a, m, s, x.state, y.state, x.ops, y.ops, {});
        RemovePlacementShape(cfg, x.state, oid, from);
        OtherTierStays(x.state.entries[oid].placements, target, from);
      }
    }
  }

  lemma OtherTierStays(ps: seq<Placement>, keep: Tier, drop: Tier)
    requires IndexOf(ps, keep) < |ps| && keep != drop
    ensures IndexOf(ps, drop) < |ps| ==> Without(ps, IndexOf(ps, drop)) != []
  {
  }

  /** After a persist that succeeds, the entry is durable and on disk. */
  lemma KeptPersist(cfg: Config, r: Rules, a: Registry, m: Registry, s: State, oid: Digest)
    requires Serves(cfg, r) && StateOk(r, a, m, s)
    ensures var x := Persist(cfg, s, oid);
      && Kept(r, a, m, s, x.state, x.ops, {})
      && (x.result.Ok? ==>
         oid in x.state.entries && OnDisk in x.state.entries[oid].placements && x.state.entries[oid].durable)
  {
    hide StateOk, Kept, Serves, Ensure;
    var x := Ensure(cfg, s, oid, P.Persistent);
    KeptEnsure(cfg, r, a, m, s, oid, P.Persistent);
    KeptState(r, a, m, s, x.state, x.ops, {});
    if x.result.Ok? {
      var m1 := DescribedAfter(m, a, x.ops);
      var e := x.state.entries[oid].(durable := true);
      KeptBookkeeping(r, a, m1, x.state, oid, e);
      var none: seq<DiskOp> := [];
      KeptConcat(r, a, m, s, x.state, x.state.(entries := x.state.entries[oid := e]), x.ops, none, {});
      assert x.ops + none == x.ops;
      NotOnDisk(x.state.entries[oid]);
    }
  }

  lemma KeptEvict(cfg: Config, r: Rules, a: Registry, m: Registry, s: State, oid: Digest)
    requires Serves(cfg, r) && StateOk(r, a, m, s)
    ensures var x := Evict(cfg, s, oid); x.ops == [] && Kept(r, a, m, s, x.state, [], {})
  {
    hide StateOk, Kept, Serves, RemoveTiers;
    KeptTrivially(r, a, m, s, {});
    if oid in s.entries {
      var tiers := Tiers(s.entries[oid].placements);
      VolatileMembers(tiers, P.Persistent);
      KeptRemoveTiers(cfg, r, a, m, s, oid, Volatile(tiers), true);
    }
  }

  // ---- One operation, in general -----------------------------------------------------------

  /**
   * Every operation refines its step on the write-once map, keeps the invariant, and passes only through
   * safe disk states; and what a restore returns is the map's value.
   */
  lemma StepRefines(cfg: Config, r: Rules, a: Registry, m: Registry, s: State, op: Op, now: u64)
    requires Serves(cfg, r) && StateOk(r, a, m, s) && OpOk(cfg, r, op, now)
    ensures var x := Step(cfg, s, op, now);
      && StepKept(r, a, AbstractStep(cfg, a, op, now, x.result.Ok?), m, s, x.state, x.ops, Gone(op))
      && (op.DoRestore? && x.result.Ok? ==> op.oid in a && x.result.value == Payload(a[op.oid].payload))
      && (op.DoRegister? && x.result.Ok? ==> cfg.name(op.address) !in a)
  {
    hide StateOk, StepKept, Kept, Serves, Register, Lookup, Restore, Promote, Demote, Persist, Evict, Delete, OpOk;
    match op
    case DoRegister(address, k, payload) =>
      KeptRegister(cfg, r, a, m, s, address, k, payload, now);
    case DoLookup(address, k) =>
      KeptLookup(cfg, r, a, m, s, address, k, now);
      KeptIsStepKept(r, a, m, s, Lookup(cfg, s, address, k, now).state, [], {});
    case DoRestore(oid, t) =>
      KeptRestore(cfg, r, a, m, s, oid, t, now);
      KeptIsStepKept(r, a, m, s, Restore(cfg, s, oid, t, now).state, Restore(cfg, s, oid, t, now).ops, {});
    case DoPromote(oid, t) =>
      KeptPromote(cfg, r, a, m, s, oid, t, now);
      KeptIsStepKept(r, a, m, s, Promote(cfg, s, oid, t, now).state, Promote(cfg, s, oid, t, now).ops, {});
    case DoDemote(oid, t) =>
      KeptDemote(cfg, r, a, m, s, oid, t);
      KeptIsStepKept(r, a, m, s, Demote(cfg, s, oid, t).state, Demote(cfg, s, oid, t).ops, {});
    case DoPersist(oid) =>
      KeptPersist(cfg, r, a, m, s, oid);
      KeptIsStepKept(r, a, m, s, Persist(cfg, s, oid).state, Persist(cfg, s, oid).ops, {});
    case DoEvict(oid) =>
      KeptEvict(cfg, r, a, m, s, oid);
      KeptIsStepKept(r, a, m, s, Evict(cfg, s, oid).state, [], {});
    case DoDelete(oid) =>
      KeptDelete(cfg, r, a, m, s, oid);
  }
}

/**
 * A run in which an identity changes its object without the later object ever being deleted. A crash interrupts the
 * deletion of X after its block file is gone; the reopening skips X but leaves its manifest; Y is registered under the
 * same identity; another object that shares X's block is persisted and brings the block file back; and the next
 * reopening admits X again.
 */
module CacheRevived {
  import opened Prelude
  import opened Storage
  import opened Accounting
  import opened BlockArena
  import opened Compat
  import opened CacheSpec
  import opened CacheLoads
  import opened DiskSafety
  import opened CacheInvariant
  import opened CacheSteps
  import opened CacheOperations
  import opened CacheRecovery
  import opened CacheRuns
  import opened CacheCrashes
  import opened CacheAccounting
  import opened CacheExactness
  import opened CacheDrift
  import opened CacheManifests
  import opened CacheWitnesses
  import L = CacheLostLayout
  import T = CacheTheorems
  import P = Planner

  /** X = [x] and Y = [y] under the address `here`, Z = [x] under the address `there`. */
  datatype Case = Case(here: Address, there: Address, k: CompatKey, x: byte, y: byte, now: u64)

  function X(t: Case): Object {
    Object(t.here, t.k, [t.x], t.now)
  }

  function Y(t: Case): Object {
    Object(t.here, t.k, [t.y], t.now)
  }

  function Z(t: Case): Object {
    Object(t.there, t.k, [t.x], t.now)
  }

  ghost predicate CaseOk(cfg: Config, r: Rules, t: Case) {
    && Serves(cfg, r) && cfg.hasStore && cfg.blockSize == 1 && Admits(cfg, 1) && t.x != t.y
    && cfg.name(t.here) != cfg.name(t.there)
    && CheckPayload(cfg, t.k, [t.x]).Ok? && CheckPayload(cfg, t.k, [t.y]).Ok? && r.readable(X(t))
    && OpOk(cfg, r, DoRegister(t.here, t.k, [t.x]), t.now) && OpOk(cfg, r, DoRegister(t.here, t.k, [t.y]), t.now)
    && OpOk(cfg, r, DoRegister(t.there, t.k, [t.x]), t.now)
  }

  lemma HashesDiffer(cfg: Config, r: Rules, t: Case)
    requires CaseOk(cfg, r, t)
    ensures cfg.content.hash([t.x]) != cfg.content.hash([t.y])
  {
    hide CheckPayload, Usable, Admits;
    ByteKnown(cfg, r, t.here, t.k, t.x, t.now);
    ByteKnown(cfg, r, t.here, t.k, t.y, t.now);
    var x: Bytes, y: Bytes := [t.x], [t.y];
    assert x[0] != y[0];
  }

  // ---- The interrupted deletion ------------------------------------------------------------

  /** The only reference on disk to the only entry's only block. */
  lemma OneDiskReference(cfg: Config, r: Rules, w: World, obj: Object, x: byte)
    requires Serves(cfg, r) && OneOnDisk(cfg, r, w, obj, x)
    ensures var h := cfg.content.hash([x]); h in w.s.diskRefs && w.s.diskRefs[h] == 1 && BlockFile(h) in w.s.disk
  {
    hide Serves, EntriesOk, HostOk, DeviceOk, DiskSound, Linked, With, TotalLoad, FileSizes;
    var h := cfg.content.hash([x]);
    OneTotal(w.s.entries, cfg.name(obj.address), ByteRef(cfg.content, x, 0));
    assert CountIn(w.s.diskRefs, h) == 1;
  }

  lemma OneTotal(entries: map<Digest, Entry>, oid: Digest, b: BlockRef)
    requires entries.Keys == {oid} && entries[oid].placements == [InHost([b]), OnDisk] && entries[oid].blocks == [b]
    ensures TotalLoad(entries)[DiskRef(b.hash)] == 1
  {
    hide TotalLoad;
    TotalDrop(entries, oid);
    assert entries - {oid} == map[];
    EmptyTotal();
    LoadOfOne(b);
  }

  lemma LoadOfOne(b: BlockRef)
    ensures LoadAll([b], [InHost([b]), OnDisk])[DiskRef(b.hash)] == 1
  {
    hide Tagged, LoadAll;
    var first: Placement, none: seq<Placement> := InHost([b]), [];
    LoadPush([b], [first], OnDisk);
    LoadPush([b], none, first);
    assert [first] + [OnDisk] == [first, OnDisk] && none + [first] == [first];
    NoLoad([b]);
    TaggedCounts([b], true, DiskRef(b.hash));
    TaggedCounts([b], false, DiskRef(b.hash));
    assert Uses([b])[b.hash] == 1 by { UsesOfOne(b); }
  }

  lemma NoLoad(blocks: seq<BlockRef>)
    ensures LoadAll(blocks, []) == multiset{}
  {
  }

  lemma UsesOfOne(b: BlockRef)
    ensures Uses([b])[b.hash] == 1
  {
    assert [b][1..] == [];
  }

  /** Deleting an entry in memory and on disk removes its block file first. */
  lemma DeletionStarts(cfg: Config, s: State, oid: Digest, b: BlockRef)
    requires cfg.hasStore && oid in s.entries && s.entries[oid].placements == [InHost([b]), OnDisk]
    requires s.entries[oid].blocks == [b]
    requires ReleaseAll(s.arena, s.host, [b]).2 && b.hash in s.diskRefs && s.diskRefs[b.hash] == 1
    requires BlockFile(b.hash) in s.disk
    ensures var ops := Delete(cfg, s, oid).ops; |ops| >= 1 && ops[0] == Remove(BlockFile(b.hash))
  {
    hide ReleaseAll, RemoveTiers, RemovePlacement, ApplyAll;
    var ps := s.entries[oid].placements;
    TiersOfTwo(ps[0], ps[1]);
    HostTaken(cfg, s, oid, 0);
    assert Without(ps, 0) == [OnDisk];
    var y := RemovePlacement(cfg, s, oid, P.Host);
    DiskRemovalStarts(cfg, y.state, oid, b);
    var z := RemovePlacement(cfg, y.state, oid, P.Persistent);
    TwoTiersOps(cfg, s, oid, P.Host, P.Persistent);
    assert y.ops == [] && y.result.Ok?;
  }

  lemma DiskRemovalStarts(cfg: Config, s: State, oid: Digest, b: BlockRef)
    requires cfg.hasStore && oid in s.entries && s.entries[oid].placements == [OnDisk] && s.entries[oid].blocks == [b]
    requires b.hash in s.diskRefs && s.diskRefs[b.hash] == 1 && BlockFile(b.hash) in s.disk
    ensures var x := RemovePlacement(cfg, s, oid, P.Persistent);
      x.result.Ok? && |x.ops| >= 1 && x.ops[0] == Remove(BlockFile(b.hash))
  {
    hide ApplyAll;
    assert IndexOf([OnDisk], P.Persistent) == 0;
    assert [b][1..] == [];
    var drop := DropBlocks(s.diskRefs, s.storageUsed, s.disk, [b]);
    assert drop.ops[0] == Remove(BlockFile(b.hash));
  }

  lemma TwoTiersOps(cfg: Config, s: State, oid: Digest, t: Tier, u: Tier)
    ensures var y := RemovePlacement(cfg, s, oid, t); var z := RemovePlacement(cfg, y.state, oid, u);
      var x := RemoveTiers(cfg, s, oid, [t, u], true);
      y.result.Ok? && z.result.Ok? ==> x.result.Ok? && x.ops == y.ops + z.ops
  {
    hide RemovePlacement;
    var y := RemovePlacement(cfg, s, oid, t);
    assert [t, u][1..] == [u];
    OneTier(cfg, y.state, oid, u, true);
  }

  function Interrupted(s: State, t: Case, oid: Digest, h: Digest): Event {
    CrashIn(DoDelete(oid), t.now, 1, s.disk - {BlockFile(h)}, [oid], 2, 1, map[], t.now)
  }

  /** Nothing is registered, but the manifest of X is left. */
  ghost predicate Haunted(cfg: Config, r: Rules, t: Case, w: World) {
    && WorldOk(r, w) && w.s.entries == map[] && w.a == map[] && w.m.Keys == {cfg.name(t.here)}
    && w.m[cfg.name(t.here)] == X(t)
    && w.history == iset{(cfg.name(t.here), X(t))}
    && w.s.arena == EMPTY_ARENA && w.s.host == Budget(2, 0, 0) && w.s.storage == Budget(1, 0, 0)
  }

  lemma InterruptedOk(cfg: Config, r: Rules, t: Case, w: World)
    requires CaseOk(cfg, r, t) && OneOnDisk(cfg, r, w, X(t), t.x)
    ensures var oid, h := cfg.name(t.here), cfg.content.hash([t.x]); var ev := Interrupted(w.s, t, oid, h);
      EventOk(cfg, r, w, ev) && Step(cfg, w.s, ev.op, ev.now).ops[..1] == [Remove(BlockFile(h))]
  {
    hide Serves, StateOk, CheckPayload, Admits, Delete, ReleaseAll, With;
    var oid, h := cfg.name(t.here), cfg.content.hash([t.x]);
    OneDiskReference(cfg, r, w, X(t), t.x);
    ReleaseOne(cfg.content, EMPTY_ARENA, w.s.host, t.x, 0);
    DeletionStarts(cfg, w.s, oid, ByteRef(cfg.content, t.x, 0));
    L.ListsOne(r, w, oid);
    var ops := Step(cfg, w.s, DoDelete(oid), t.now).ops;
    assert ops[..1] == [Remove(BlockFile(h))] && [Remove(BlockFile(h))][1..] == [];
    assert ApplyAll(w.s.disk, ops[..1]) == w.s.disk - {BlockFile(h)};
  }

  lemma DeletionInterrupted(cfg: Config, r: Rules, t: Case, w: World)
    requires CaseOk(cfg, r, t) && OneOnDisk(cfg, r, w, X(t), t.x)
    ensures var ev := Interrupted(w.s, t, cfg.name(t.here), cfg.content.hash([t.x]));
      EventOk(cfg, r, w, ev) && Haunted(cfg, r, t, Next(cfg, r, w, ev))
  {
    hide Serves, StateOk, CheckPayload, Admits, Step, Open, SameButTemps, Lists, With, OpOk;
    var oid, h := cfg.name(t.here), cfg.content.hash([t.x]);
    var ev := Interrupted(w.s, t, oid, h);
    InterruptedOk(cfg, r, t, w);
    NextKeeps(cfg, r, w, ev);
    var w' := Next(cfg, r, w, ev);
    BlockRemovalDescribes(w.m, w.a, h);
    assert w'.m == DescribedAfter(w.m, w.a, Step(cfg, w.s, ev.op, ev.now).ops[..ev.k]);
    assert ByteRef(cfg.content, t.x, 0) in One(cfg, t.x) && BlockFile(h) !in Clean(ev.image);
    assert !BlocksExist(Clean(ev.image), One(cfg, t.x));
    assert w'.a == map[];
    EntryKeys(r, w'.a, w'.m, w'.s);
    assert w'.s.entries == map[];
    OpenedHost(cfg, ev.image, ev.listing, 2, 1, map[], t.now);
  }

  lemma BlockRemovalDescribes(m: Registry, a: Registry, h: Digest)
    ensures DescribedAfter(m, a, [Remove(BlockFile(h))]) == m
  {
    assert [Remove(BlockFile(h))][1..] == [];
    assert DescribedAfter(m, a, []) == m;
  }

  lemma OpenedHost(cfg: Config, d: Disk, listing: seq<Digest>, host: u64, storage: u64, backends: map<BackendId,
                   Backend>, now: u64)
    ensures var s := Open(cfg, d, listing, host, storage, backends, now);
      s.arena == EMPTY_ARENA && s.host == Budget(host, 0, 0) && s.storage == Budget(storage, 0, 0)
  {
    hide RecoverAll, Clean;
    RecoveryLeavesHost(cfg, Fresh(Clean(d), host, storage, backends), listing, now);
  }

  // ---- Registering Y and Z, persisting Z ---------------------------------------------------

  /** Y is registered where the manifest still says X; Z is in memory. */
  ghost predicate Shadowed(cfg: Config, r: Rules, t: Case, w: World) {
    var here, there := cfg.name(t.here), cfg.name(t.there);
    && WorldOk(r, w) && w.a.Keys == {here, there} && w.a[here] == Y(t) && w.a[there] == Z(t)
    && w.m.Keys == {here} && w.m[here] == X(t)
    && Has(w.s, there, [InHost(One(cfg, t.x))], false) && w.s.entries[there].blocks == One(cfg, t.x)
    && w.s.storage == Budget(1, 0, 0)
  }

  lemma RegisterZ(cfg: Config, r: Rules, t: Case, w: World)
    requires CaseOk(cfg, r, t) && OneInHost(cfg, r, w, Y(t), t.y) && w.m.Keys == {cfg.name(t.here)}
    requires w.m[cfg.name(t.here)] == X(t)
    requires w.s.host.capacity == 2 && w.s.storage == Budget(1, 0, 0)
    ensures EventOk(cfg, r, w, Run(DoRegister(t.there, t.k, [t.x]), t.now))
    ensures Shadowed(cfg, r, t, Next(cfg, r, w, Run(DoRegister(t.there, t.k, [t.x]), t.now)))
  {
    hide Serves, StateOk, CheckPayload, Register, Admits, OpOk;
    RegisterZState(cfg, r, t, w);
    Runs(cfg, r, w, DoRegister(t.there, t.k, [t.x]), t.now);
  }

  lemma RegisterZState(cfg: Config, r: Rules, t: Case, w: World)
    requires CaseOk(cfg, r, t) && OneInHost(cfg, r, w, Y(t), t.y) && w.s.host.capacity == 2
    ensures var x := Register(cfg, w.s, t.there, t.k, [t.x], t.now); var there := cfg.name(t.there);
      && x.result.Ok? && x.ops == [] && Has(x.state, there, [InHost(One(cfg, t.x))], false)
      && x.state.entries[there].blocks == One(cfg, t.x) && x.state.storage == w.s.storage
  {
    hide Serves, StateOk, CheckPayload, Register, Admits, Charged, AcquireAll, OpOk, EvictToFree;
    HashesDiffer(cfg, r, t);
    OneBlock(cfg, t.k, t.x);
    OneCharged(w.s.arena.blocks.Keys, ByteRef(cfg.content, t.x, 0));
    EntryKeys(r, w.a, w.m, w.s);
    assert ChargeFor(cfg, w.s, t.k, [t.x]) == 1 && WithRoom(cfg, w.s, 1, t.now) == w.s;
    RegistrationSucceeds(cfg, r, w.a, w.m, w.s, t.there, t.k, [t.x], t.now);
    RegistrationStoresAfterRoom(cfg, r, w.a, w.m, w.s, t.there, t.k, [t.x], t.now);
    RegisterTouchesNoFile(cfg, w.s, t.there, t.k, [t.x], t.now);
  }

  /** Persisting one object leaves the manifests of others alone. */
  lemma PersistSparesOthers(cfg: Config, r: Rules, a: Registry, m: Registry, s: State, oid: Digest, refs: seq<BlockRef>,
                            o: Digest)
    requires Serves(cfg, r) && StateOk(r, a, m, s) && cfg.hasStore && oid in s.entries
    requires s.entries[oid].placements == [InHost(refs)]
    requires Charged(s.diskRefs.Keys, s.entries[oid].blocks) <= Free(s.storage) && o != oid && ManifestFile(o) in s.disk
    ensures ManifestFile(o) in Persist(cfg, s, oid).state.disk
  {
    hide Serves, StateOk, Materialize, AddDisk, Charged, Usable;
    EntryKeys(r, a, m, s);
    assert IndexOf(s.entries[oid].placements, P.Persistent) == 1;
    MaterializeYieldsPayload(cfg, r, a, m, s, oid);
    UsablePositive(cfg, r, oid, a[oid]) by { EntryFacts(cfg, r, a, m, s, oid); }
    LengthOf(cfg, r, a, m, s, oid);
    AddDiskSparesOthers(cfg, r, a, m, s, oid, o);
  }

  lemma AddDiskSparesOthers(cfg: Config, r: Rules, a: Registry, m: Registry, s: State, oid: Digest, o: Digest)
    requires Serves(cfg, r) && StateOk(r, a, m, s) && cfg.hasStore && oid in s.entries && oid in a
    requires |a[oid].payload| < TWO_64
    requires Charged(s.diskRefs.Keys, s.entries[oid].blocks) <= Free(s.storage) && o != oid && ManifestFile(o) in s.disk
    ensures ManifestFile(o) in AddDisk(cfg, s, oid, a[oid].payload).state.disk
  {
    hide Serves, EntriesOk, Linked, HostOk, StoreOk, DeviceOk, DiskSound, AddDisk, PutBlocks, Charged, Usable, SafeRun;
    hide ApplyAll, AtomicWrite;
    hide DescribedAfter, Spares;
    EntryFacts(cfg, r, a, m, s, oid);
    assert s.entries[oid].blocks ==
      r.blocks(a[oid]) by { EntryBlocks(r, s.backends.Keys, oid, a[oid], s.entries[oid]); }
    PutUsable(cfg, r, a, m, s, oid);
    AddDiskUnfolds(cfg, r, s, oid, a[oid]);
    var put := PutBlocks(s.diskRefs, s.storageUsed, s.disk, a[oid].payload, r.blocks(a[oid]));
    var d1 := ApplyAll(s.disk, put.ops);
    assert Spares(put.ops, ManifestFile(o));
    SparedStays(r, a, s.disk, put.ops, ManifestFile(o));
    BlockStepsSound(r, m, a, s.disk, put.ops);
    WriteManifestSteps(r, m, a, d1, oid);
  }

  /** Z is on disk and with it the block that X needs; the manifest of X is still there. */
  ghost predicate Primed(cfg: Config, r: Rules, t: Case, w: World) {
    var here, there := cfg.name(t.here), cfg.name(t.there);
    && WorldOk(r, w) && here in w.a && w.a[here] == Y(t) && w.m.Keys == {here, there} && w.m[here] == X(t)
    && BlocksExist(w.s.disk, One(cfg, t.x))
  }

  lemma PersistZ(cfg: Config, r: Rules, t: Case, w: World)
    requires CaseOk(cfg, r, t) && Shadowed(cfg, r, t, w)
    ensures EventOk(cfg, r, w, Run(DoPersist(cfg.name(t.there)), t.now))
    ensures Primed(cfg, r, t, Next(cfg, r, w, Run(DoPersist(cfg.name(t.there)), t.now)))
  {
    hide Serves, StateOk, CheckPayload, Persist, Admits, BlocksExist;
    var here, there := cfg.name(t.here), cfg.name(t.there);
    OneCharged(w.s.diskRefs.Keys, ByteRef(cfg.content, t.x, 0));
    HostOnlyPersisted(cfg, r, w.a, w.m, w.s, there, One(cfg, t.x));
    Runs(cfg, r, w, DoPersist(there), t.now);
    var w' := Next(cfg, r, w, Run(DoPersist(there), t.now));
    assert w'.s.entries[there].placements[1] == OnDisk;
    PersistedFacts(r, w'.a, w'.m, w'.s, there);
    EntryBlocksOf(cfg, r, w, there);
    StateDisk(r, w.a, w.m, w.s, here);
    PersistSparesOthers(cfg, r, w.a, w.m, w.s, there, One(cfg, t.x), here);
    Described(r, w'.a, w'.m, w'.s, here);
    ManifestsAfter(cfg, w, there, here, t.now);
  }

  lemma Described(r: Rules, a: Registry, m: Registry, s: State, o: Digest)
    requires StateOk(r, a, m, s) && ManifestFile(o) in s.disk
    ensures o in m
  {
    hide EntriesOk, HostOk, StoreOk, DeviceOk, Linked;
  }

  lemma ManifestsAfter(cfg: Config, w: World, there: Digest, here: Digest, now: u64)
    requires w.m.Keys == {here} && here != there
    ensures var m' := DescribedAfter(w.m, w.a, Step(cfg, w.s, DoPersist(there), now).ops);
      (forall o :: o in m' ==> o == here || o == there) && (here in m' ==> m'[here] == w.m[here])
  {
    hide Step, DescribedAfter;
    var ops := Step(cfg, w.s, DoPersist(there), now).ops;
    StepWrites(cfg, w.s, DoPersist(there), now);
    forall o | o in DescribedAfter(w.m, w.a, ops) && o != there
      ensures o == here && DescribedAfter(w.m, w.a, ops)[o] == w.m[o]
    {
      UnwrittenDescribed(w.m, w.a, ops, o);
      assert o in w.m.Keys;
    }
  }

  // ---- The second reopening ----------------------------------------------------------------

  lemma ListsTwo(r: Rules, w: World, a: Digest, b: Digest)
    requires WorldOk(r, w) && w.m.Keys == {a, b} && a != b
    ensures Lists([a, b], w.s.disk)
  {
    hide EntriesOk, HostOk, StoreOk, DeviceOk, Linked;
    assert forall o :: o in [a, b] <==> o in w.m.Keys;
  }

  lemma Revived(cfg: Config, r: Rules, t: Case, w: World)
    requires CaseOk(cfg, r, t) && Primed(cfg, r, t, w)
    ensures var here, there := cfg.name(t.here), cfg.name(t.there);
      var ev := L.Restart(w.s, t.here, t.k, t.now, [here, there], 2, 1);
      && EventOk(cfg, r, w, ev) && here in Next(cfg, r, w, ev).a && Next(cfg, r, w, ev).a[here] == X(t)
      && Stale(w, here)
  {
    hide Serves, StateOk, CheckPayload, Admits, Step, Open, OpOk, BlocksExist, Lists;
    var here, there := cfg.name(t.here), cfg.name(t.there);
    ListsTwo(r, w, here, there);
    L.RestartOk(cfg, r, w, t.here, t.k, t.now, [here, there], 2, 1);
    var ev := L.Restart(w.s, t.here, t.k, t.now, [here, there], 2, 1);
    assert Step(cfg, w.s, ev.op, ev.now).ops[..0] == [];
    ImageHasBlocks(w.s.disk, ev.image, One(cfg, t.x));
    assert r.blocks(X(t)) ==
      One(cfg, t.x) by { CheckedObjectBlocks(cfg, r, t.here, t.k, [t.x], t.now); OneBlock(cfg, t.k, t.x); }
    assert here in [here, there];
    assert [t.x] != [t.y] by { var x: Bytes, y: Bytes := [t.x], [t.y]; assert x[0] != y[0]; }
  }

  lemma RevivalRun(cfg: Config, r: Rules, t: Case, w0: World) returns (evs: seq<Event>, ev: Event)
    requires CaseOk(cfg, r, t) && Blank(r, w0)
    ensures RunOk(cfg, r, w0, evs) && ev.CrashIn? && ev.op.DoLookup? && EventOk(cfg, r, After(cfg, r, w0, evs), ev)
    ensures var here := cfg.name(t.here); var w := After(cfg, r, w0, evs); var w' := Next(cfg, r, w, ev);
      here in w.a && w.a[here] == Y(t) && here in w'.a && w'.a[here] == X(t) && X(t) != Y(t)
  {
    hide Next, EventOk, Shadowed, Primed, Haunted, OneInHost, OneOnDisk, L.Restart, Serves, Admits, CheckPayload, OpOk;
    hide Interrupted;
    var here, there := cfg.name(t.here), cfg.name(t.there);
    var done := RegisterThenPersist(cfg, r, w0, t.here, t.k, t.x, t.now);
    var w2 := After(cfg, r, w0, done);
    var e3 := Interrupted(w2.s, t, here, cfg.content.hash([t.x]));
    DeletionInterrupted(cfg, r, t, w2);
    RunSnoc(cfg, r, w0, done, e3);
    evs := RegisterBothPersistOne(cfg, r, t, w0, done + [e3]);
    var w := After(cfg, r, w0, evs);
    Revived(cfg, r, t, w);
    ev := L.Restart(w.s, t.here, t.k, t.now, [here, there], 2, 1);
    L.RestartShape(w.s, t.here, t.k, t.now, [here, there], 2, 1);
    assert here in w.a && w.a[here] == Y(t) by { PrimedY(cfg, r, t, w); }
    assert X(t).payload != Y(t).payload by { var x: Bytes, y: Bytes := [t.x], [t.y]; assert x[0] != y[0]; }
  }

  lemma PrimedY(cfg: Config, r: Rules, t: Case, w: World)
    requires Primed(cfg, r, t, w)
    ensures cfg.name(t.here) in w.a && w.a[cfg.name(t.here)] == Y(t)
  {
  }

  lemma RegisterBothPersistOne(cfg: Config, r: Rules, t: Case, w0: World, done: seq<Event>) returns (evs: seq<Event>)
    requires CaseOk(cfg, r, t) && RunOk(cfg, r, w0, done) && Haunted(cfg, r, t, After(cfg, r, w0, done))
    ensures RunOk(cfg, r, w0, evs) && Primed(cfg, r, t, After(cfg, r, w0, evs))
  {
    hide Next, EventOk, Shadowed, Primed, OneInHost, Serves, Admits, CheckPayload, OpOk, RunOk, After, WorldOk;
    var w3 := After(cfg, r, w0, done);
    var e4 := Run(DoRegister(t.here, t.k, [t.y]), t.now);
    RegisterByte(cfg, r, w3, t.here, t.k, t.y, t.now);
    RunSnoc(cfg, r, w0, done, e4);
    var w4 := Next(cfg, r, w3, e4);
    var e5 := Run(DoRegister(t.there, t.k, [t.x]), t.now);
    RegisterZ(cfg, r, t, w4);
    RunSnoc(cfg, r, w0, done + [e4], e5);
    var w5 := Next(cfg, r, w4, e5);
    var e6 := Run(DoPersist(cfg.name(t.there)), t.now);
    PersistZ(cfg, r, t, w5);
    RunSnoc(cfg, r, w0, done + [e4] + [e5], e6);
    evs := done + [e4] + [e5] + [e6];
  }

  /**
   * From an empty cache with room for a byte: Y is registered under the identity in the last world but one, nothing
   * ever deletes it, and a restart that interrupts nothing gives the bytes of X under that identity.
   */
  lemma StaleManifestRevives(cfg: Config, known: iset<Bytes>, w0: World, here: Address, there: Address, x: byte,
                             y: byte, now: u64)
    returns (evs: seq<Event>, ev: Event)
    requires T.Wired(cfg) && NoCollision(cfg.content, known) && cfg.hasStore && cfg.blockSize == 1 && Admits(cfg, 1)
    requires here != there && x != y
    requires T.InputOk(cfg, known, DoRegister(here, L.Row(1), [x]))
    requires T.InputOk(cfg, known, DoRegister(here, L.Row(1), [y]))
    requires T.InputOk(cfg, known, DoRegister(there, L.Row(1), [x]))
    requires T.Initial(w0) && w0.s.host.capacity >= 1 && Free(w0.s.storage) >= 1
    ensures T.Reachable(cfg, known, w0, evs) && ev.CrashIn? && ev.op.DoLookup?
    ensures var w, r, oid := T.Reached(cfg, known, w0, evs), T.RulesOf(cfg, known), cfg.name(here);
      && EventOk(cfg, r, w, ev) && oid in w.a && w.a[oid] == Object(here, L.Row(1), [y], now)
      && Materialize(cfg, Next(cfg, r, w, ev).s, oid) == Ok([x])
  {
    hide T.Wired, NoCollision, T.InputOk, Admits, CheckPayload, RunOk, Next, EventOk, WorldOk, OpOk, Serves, T.Initial;
    hide Materialize;
    var r, k := T.RulesOf(cfg, known), L.Row(1);
    var t := Case(here, there, k, x, y, now);
    T.RulesServe(cfg, known);
    T.InputsSuffice(cfg, known, DoRegister(here, k, [x]), now);
    T.InputsSuffice(cfg, known, DoRegister(here, k, [y]), now);
    T.InputsSuffice(cfg, known, DoRegister(there, k, [x]), now);
    L.NamesDiffer(cfg, known, DoRegister(here, k, [x]), DoRegister(there, k, [x]));
    L.RowPasses(cfg, [x]);
    L.RowPasses(cfg, [y]);
    L.StartsBlank(r, w0);
    assert r.readable(X(t));
    evs, ev := RevivalRun(cfg, r, t, w0);
    var w := T.Reached(cfg, known, w0, evs);
    T.ReachedOk(cfg, known, w0, evs);
    AdmittedBytes(cfg, r, w, ev, cfg.name(here));
  }

  lemma AdmittedBytes(cfg: Config, r: Rules, w: World, ev: Event, oid: Digest)
    requires Serves(cfg, r) && WorldOk(r, w) && ev.CrashIn? && EventOk(cfg, r, w, ev) && oid in Next(cfg, r, w, ev).a
    ensures Materialize(cfg, Next(cfg, r, w, ev).s, oid) == Ok(Next(cfg, r, w, ev).a[oid].payload)
  {
    hide Serves, StateOk, EventOk, Next, Materialize;
    var w' := Next(cfg, r, w, ev);
    NextKeeps(cfg, r, w, ev);
    EntryKeys(r, w'.a, w'.m, w'.s);
    AdmittedRestores(cfg, r, w, ev, oid);
  }
}

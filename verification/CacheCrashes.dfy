/** Runs of operations with crashes and reopenings, against the history of what was ever registered. */
module CacheCrashes {
  import opened Prelude
  import opened Storage
  import opened CacheSpec
  import opened CacheLoads
  import opened DiskSafety
  import opened CacheInvariant
  import opened CacheKept
  import opened CacheRecovery
  import opened CacheRuns

  /** The running cache, the write-once map it refines, what the manifests describe, and all registrations so far. */
  datatype World = World(s: State, a: Registry, m: Registry, history: iset<(Digest, Object)>)

  /**
   * An operation runs to its end; or the process dies after `k` of the operation's file-system steps and the
   * cache is opened again over the image left behind.
   */
  datatype Event =
    | Run(op: Op, now: u64)
    | CrashIn(op: Op, now: u64, k: nat, image: Disk, listing: seq<Digest>,
              hostCapacity: u64, storageCapacity: u64, backends: map<BackendId, Backend>, reopenedAt: u64)

  ghost predicate EventOk(cfg: Config, r: Rules, w: World, ev: Event) {
    && OpOk(cfg, r, ev.op, ev.now)
    && (ev.CrashIn? ==>
        var ops := Step(cfg, w.s, ev.op, ev.now).ops;
        && ev.k <= |ops| && SameButTemps(ApplyAll(w.s.disk, ops[..ev.k]), ev.image)
        && Lists(ev.listing, ev.image) && Idle(ev.backends))
  }

  ghost function Registered(cfg: Config, op: Op, now: u64, ok: bool): iset<(Digest, Object)> {
    if op.DoRegister? && ok then iset{(cfg.name(op.address), Object(op.address, op.compat, op.payload, now))}
      else iset{}
  }

  ghost function Next(cfg: Config, r: Rules, w: World, ev: Event): World
    requires EventOk(cfg, r, w, ev)
  {
    var x := Step(cfg, w.s, ev.op, ev.now);
    if ev.Run? then
      World(x.state, AbstractStep(cfg, w.a, ev.op, ev.now, x.result.Ok?), DescribedAfter(w.m, w.a, x.ops),
            w.history + Registered(cfg, ev.op, ev.now, x.result.Ok?))
    else
      var m := DescribedAfter(w.m, w.a, x.ops[..ev.k]);
      World(Open(cfg, ev.image, ev.listing, ev.hostCapacity, ev.storageCapacity, ev.backends, ev.reopenedAt),
            if cfg.hasStore then AdmittedFrom(r, m, Clean(ev.image), ev.listing) else map[], m, w.history)
  }

  /** The invariant holds, and every object in the map or in a manifest was once registered under its identity. */
  ghost predicate WorldOk(r: Rules, w: World) {
    && StateOk(r, w.a, w.m, w.s)
    && (forall o :: o in w.a ==> (o, w.a[o]) in w.history)
    && (forall o :: o in w.m ==> (o, w.m[o]) in w.history)
  }

  lemma CrashSound(cfg: Config, r: Rules, w: World, ev: Event)
    requires Serves(cfg, r) && StateOk(r, w.a, w.m, w.s) && ev.CrashIn? && EventOk(cfg, r, w, ev)
    ensures var ops := Step(cfg, w.s, ev.op, ev.now).ops; var m := DescribedAfter(w.m, w.a, ops[..ev.k]);
      && DiskSound(r, m, ApplyAll(w.s.disk, ops[..ev.k]))
      && SafeRun(r, w.a, w.s.disk, ops[..ev.k])
      && StateOk(r, Next(cfg, r, w, ev).a, m, Next(cfg, r, w, ev).s)
      && Next(cfg, r, w, ev).s.disk == (if cfg.hasStore then Clean(ev.image) else ev.image)
  {
    hide Serves, Step, OpOk, EntriesOk, HostOk, StoreOk, DeviceOk, Linked, DiskSound, SafeRun, Open;
    hide SameButTemps, Lists;
    var ops := Step(cfg, w.s, ev.op, ev.now).ops;
    var m := DescribedAfter(w.m, w.a, ops[..ev.k]);
    StepRefines(cfg, r, w.a, w.m, w.s, ev.op, ev.now);
    SafeRunPrefix(r, w.a, w.s.disk, ops, ev.k);
    SoundAtEveryCrashPoint(r, w.m, w.a, w.s.disk, ops, ev.k);
    OpenAdmits(cfg, r, m, ApplyAll(w.s.disk, ops[..ev.k]), ev.image, ev.listing, ev.hostCapacity, ev.storageCapacity,
      ev.backends, ev.reopenedAt);
  }

  lemma HistoryCovers(m: Registry, a: Registry, ops: seq<DiskOp>, history: iset<(Digest, Object)>)
    requires (forall o :: o in a ==> (o, a[o]) in history) && (forall o :: o in m ==> (o, m[o]) in history)
    ensures forall o :: o in DescribedAfter(m, a, ops) ==> (o, DescribedAfter(m, a, ops)[o]) in history
  {
    forall o | o in DescribedAfter(m, a, ops)
      ensures (o, DescribedAfter(m, a, ops)[o]) in history
    {
      DescribedFrom(m, a, ops, o);
    }
  }

  lemma NextKeeps(cfg: Config, r: Rules, w: World, ev: Event)
    requires Serves(cfg, r) && WorldOk(r, w) && EventOk(cfg, r, w, ev)
    ensures WorldOk(r, Next(cfg, r, w, ev))
  {
    hide Serves, Step, OpOk, StateOk, SafeRun, Open, SameButTemps, Lists, Admitted, DiskSound;
    var x := Step(cfg, w.s, ev.op, ev.now);
    if ev.Run? {
      StepRefines(cfg, r, w.a, w.m, w.s, ev.op, ev.now);
      HistoryCovers(w.m, w.a, x.ops, w.history);
    } else {
      CrashSound(cfg, r, w, ev);
      HistoryCovers(w.m, w.a, x.ops[..ev.k], w.history);
    }
  }

  // ---- Whole runs --------------------------------------------------------------------------

  ghost predicate RunOk(cfg: Config, r: Rules, w: World, evs: seq<Event>)
    decreases |evs|
  {
    evs == [] || (EventOk(cfg, r, w, evs[0]) && RunOk(cfg, r, Next(cfg, r, w, evs[0]), evs[1..]))
  }

  ghost function After(cfg: Config, r: Rules, w: World, evs: seq<Event>): World
    requires RunOk(cfg, r, w, evs)
    decreases |evs|
  {
    if evs == [] then w else After(cfg, r, Next(cfg, r, w, evs[0]), evs[1..])
  }

  lemma {:induction false} RunKeeps(cfg: Config, r: Rules, w: World, evs: seq<Event>)
    requires Serves(cfg, r) && WorldOk(r, w) && RunOk(cfg, r, w, evs)
    ensures WorldOk(r, After(cfg, r, w, evs))
    decreases |evs|
  {
    hide Serves, WorldOk, EventOk, Next;
    if evs != [] {
      NextKeeps(cfg, r, w, evs[0]);
      RunKeeps(cfg, r, Next(cfg, r, w, evs[0]), evs[1..]);
    }
  }

  // ---- What a crash leaves -----------------------------------------------------------------

  lemma PersistedSurvives(cfg: Config, r: Rules, w: World, ev: Event, oid: Digest)
    requires Serves(cfg, r) && WorldOk(r, w) && ev.CrashIn? && EventOk(cfg, r, w, ev) && cfg.hasStore
    requires oid in w.s.entries && OnDisk in w.s.entries[oid].placements && oid !in Gone(ev.op)
    ensures var w' := Next(cfg, r, w, ev);
      && oid in w.a && (oid in w'.a <==> r.readable(w.a[oid])) && (oid in w'.a ==> w'.a[oid] == w.a[oid])
  {
    hide Serves, Step, OpOk, StateOk, DiskSound, SafeRun, Open, Clean, SameButTemps, SparesPersisted, ApplyAll;
    hide DescribedAfter, BlocksExist;
    var ops := Step(cfg, w.s, ev.op, ev.now).ops;
    var d, m := ApplyAll(w.s.disk, ops[..ev.k]), DescribedAfter(w.m, w.a, ops[..ev.k]);
    StepRefines(cfg, r, w.a, w.m, w.s, ev.op, ev.now);
    CrashSound(cfg, r, w, ev);
    PersistedFacts(r, w.a, w.m, w.s, oid);
    PersistedAtCut(r, w.a, w.m, w.s, ops, ev.k, Gone(ev.op), oid);
    ManifestThere(r, m, d, oid);
    ImageHas(d, ev.image, ManifestFile(oid));
    ImageHasBlocks(d, ev.image, r.blocks(w.a[oid]));
    Listed(ev.listing, ev.image, oid);
  }

  lemma Listed(listing: seq<Digest>, image: Disk, oid: Digest)
    requires Lists(listing, image) && ManifestFile(oid) in image
    ensures oid in listing
  {
  }

  /** What the invariant says of a persisted entry. */
  lemma PersistedFacts(r: Rules, a: Registry, m: Registry, s: State, oid: Digest)
    requires StateOk(r, a, m, s) && oid in s.entries && OnDisk in s.entries[oid].placements
    ensures oid in a && oid in m && m[oid] == a[oid] && s.entries[oid].blocks == r.blocks(a[oid])
    ensures BlocksExist(s.disk, r.blocks(a[oid]))
  {
    hide HostOk, DeviceOk, DiskSound, StoreOk, TotalLoad, DistinctTiers, PlacementOk, BlocksExist;
    var e := s.entries[oid];
    assert EntryOk(r, s.backends.Keys, oid, a[oid], e);
    var i :| 0 <= i < |e.placements| && e.placements[i] == OnDisk;
    DiskBlocksExist(s.entries, oid, i, s.diskRefs, s.storageUsed, s.disk);
  }

  /** At the crash point, a persisted entry outside `gone` still has its manifest and its blocks. */
  lemma PersistedAtCut(r: Rules, a: Registry, m: Registry, s: State, ops: seq<DiskOp>, k: nat, gone: set<Digest>,
                       oid: Digest)
    requires k <= |ops| && SparesPersisted(s.entries, ops, gone) && SafeRun(r, a, s.disk, ops[..k])
    requires oid in s.entries && OnDisk in s.entries[oid].placements && oid !in gone && oid in m && oid in a
    requires m[oid] == a[oid]
    requires s.entries[oid].blocks == r.blocks(a[oid]) && BlocksExist(s.disk, r.blocks(a[oid]))
    ensures var m' := DescribedAfter(m, a, ops[..k]); oid in m' && m'[oid] == a[oid]
    ensures BlocksExist(ApplyAll(s.disk, ops[..k]), r.blocks(a[oid]))
  {
    hide SafeRun, ApplyAll, DescribedAfter, Spares;
    SparesPrefix(ops, k, ManifestFile(oid));
    SparedDescribed(m, a, ops[..k], oid);
    forall b | b in r.blocks(a[oid])
      ensures BlockFile(b.hash) in ApplyAll(s.disk, ops[..k])
    {
      assert b in s.entries[oid].blocks;
      SparesPrefix(ops, k, BlockFile(b.hash));
      SparedStays(r, a, s.disk, ops[..k], BlockFile(b.hash));
    }
  }

  lemma ImageHasBlocks(d: Disk, image: Disk, blocks: seq<BlockRef>)
    requires SameButTemps(d, image) && BlocksExist(d, blocks)
    ensures BlocksExist(Clean(image), blocks)
  {
    forall b | b in blocks
      ensures BlockFile(b.hash) in Clean(image)
    {
      ImageHas(d, image, BlockFile(b.hash));
    }
  }

  lemma SparesPrefix(ops: seq<DiskOp>, k: nat, p: Path)
    requires Spares(ops, p) && k <= |ops|
    ensures Spares(ops[..k], p)
  {
  }

  lemma ManifestThere(r: Rules, m: Registry, d: Disk, o: Digest)
    requires DiskSound(r, m, d) && o in m
    ensures ManifestFile(o) in d
  {
  }

  lemma ImageHas(d: Disk, image: Disk, p: Path)
    requires SameButTemps(d, image) && p in d && !p.Temp?
    ensures p in image && p in Clean(image)
  {
  }

  /** What is admitted after a crash restores, and restores to bytes once registered under that identity. */
  lemma AdmittedRestores(cfg: Config, r: Rules, w: World, ev: Event, oid: Digest)
    requires Serves(cfg, r) && WorldOk(r, w) && ev.CrashIn? && EventOk(cfg, r, w, ev)
    ensures var w' := Next(cfg, r, w, ev);
      oid in w'.s.entries ==>
        oid in w'.a && (oid, w'.a[oid]) in w.history && w'.s.entries[oid].placements != []
          && Materialize(cfg, w'.s, oid) == Ok(w'.a[oid].payload)
  {
    hide Serves, EventOk, StateOk, Open, Materialize;
    var w' := Next(cfg, r, w, ev);
    NextKeeps(cfg, r, w, ev);
    EntryKeys(r, w'.a, w'.m, w'.s);
    if oid in w'.s.entries {
      OpenedEntryPlaced(cfg, ev.image, ev.listing, ev.hostCapacity, ev.storageCapacity, ev.backends, ev.reopenedAt,
        oid);
      MaterializeYieldsPayload(cfg, r, w'.a, w'.m, w'.s, oid);
    }
  }

  /** As entries come back: in storage only, durable, not used yet. */
  predicate JustReopened(e: Entry, now: u64) {
    e.placements == [OnDisk] && e.durable && e.reuseCount == 0 && e.lastUseNs == now
  }

  lemma {:induction false} RecoveredPlaced(cfg: Config, s: State, listing: seq<Digest>, now: u64, oid: Digest)
    requires forall o :: o in s.entries ==> JustReopened(s.entries[o], now)
    ensures var s' := RecoverAll(cfg, s, listing, now); oid in s'.entries ==> JustReopened(s'.entries[oid], now)
    decreases |listing|
  {
    hide CountBlocks;
    if listing != [] {
      var path := ManifestFile(listing[0]);
      var m := if path in s.disk then cfg.codec.read(s.disk[path]) else Err(Error.Persistence);
      RecoveredPlaced(cfg, if m.Ok? then RecoverOne(cfg, s, m.value, now) else s, listing[1..], now, oid);
    }
  }

  lemma OpenedEntryPlaced(cfg: Config, d: Disk, listing: seq<Digest>, hostCapacity: u64, storageCapacity: u64,
                          backends: map<BackendId, Backend>, now: u64, oid: Digest)
    ensures var s := Open(cfg, d, listing, hostCapacity, storageCapacity, backends, now);
      oid in s.entries ==> JustReopened(s.entries[oid], now)
  {
    RecoveredPlaced(cfg, Fresh(Clean(d), hostCapacity, storageCapacity, backends), listing, now, oid);
  }
}

/**
 * The runtime object. Its methods update fields, arena, budgets and files step by step; each is proved to have the
 * effect that `CacheSpec` gives it, down to the order of its file-system steps.
 */
module TensorCacheRuntime {
  import opened Prelude
  import opened Storage
  import opened Accounting
  import opened BlockArena
  import opened Shapes
  import opened Compat
  import opened CacheSpec
  import M = Manifests
  import O = CacheOperations
  import Ev = Eviction
  import P = Planner

  /** What a lookup hit reports. */
  datatype Report = Report(oid: Digest, generation: u64, source: Option<Tier>, bytes: u64, avoidedNs: u64, plan: P.Plan)

  /** A device that holds the object, else host memory, else storage. */
  ghost predicate IsSource(tiers: seq<Tier>, t: Option<Tier>) {
    && (t.Some? ==> t.value in tiers)
    && ((exists d :: d in tiers && d.Accelerator?) ==> t.Some? && t.value.Accelerator?)
    && (P.Host in tiers ==> t.Some? && t.value != P.Persistent)
    && (tiers != [] ==> t.Some?)
  }

  method ReportedSource(tiers: seq<Tier>) returns (t: Option<Tier>)
    ensures IsSource(tiers, t)
  {
    for i := 0 to |tiers|
      invariant forall j :: 0 <= j < i ==> !tiers[j].Accelerator?
    {
      if tiers[i].Accelerator? {
        return Some(tiers[i]);
      }
    }
    if P.Host in tiers {
      return Some(P.Host);
    }
    if P.Persistent in tiers {
      return Some(P.Persistent);
    }
    assert tiers != [] ==> tiers[0] in tiers;
    return None;
  }

  /**
   * The report is true of the entry, and its plan is a cheapest way to have the object in host memory without
   * recomputing it.
   */
  ghost predicate Reports(cfg: Config, e: Entry, generation: u64, r: Report) {
    var tiers := Tiers(e.placements);
    && r.generation == generation && r.bytes == e.byteLen && IsSource(tiers, r.source)
    && P.Available(P.Host, tiers, false, r.plan.action)
    && r.plan.costNs == P.CostOf(cfg.cost, e.byteLen, P.Host, r.plan.action)
    && P.Costed(cfg.cost, e.byteLen, P.Host, r.plan)
    && P.FirstSource(cfg.cost, e.byteLen, P.Host, tiers, r.plan)
    && (P.Host in tiers ==> r.plan.action == P.ReuseInPlace)
    && (P.Host !in tiers ==>
        forall x :: P.Available(P.Host, tiers, false, x) ==>
          P.Better(r.plan, P.Plan(x, P.CostOf(cfg.cost, e.byteLen, P.Host, x))))
    && var sum := cfg.cost.recomputeBaseNs + e.byteLen * cfg.cost.recomputeNsPerByte;
       r.avoidedNs == if sum <= U64_MAX then sum else U64_MAX
  }

  lemma ReportIsRight(cfg: Config, e: Entry, r: Report)
    requires var tiers := Tiers(e.placements);
      && r.bytes == e.byteLen && IsSource(tiers, r.source)
      && P.Available(P.Host, tiers, false, r.plan.action)
      && r.plan.costNs == P.CostOf(cfg.cost, e.byteLen, P.Host, r.plan.action)
      && P.Costed(cfg.cost, e.byteLen, P.Host, r.plan)
      && P.FirstSource(cfg.cost, e.byteLen, P.Host, tiers, r.plan)
      && (P.Host in tiers ==> r.plan.action == P.ReuseInPlace)
      && (P.Host !in tiers ==>
          forall x :: P.Available(P.Host, tiers, false, x) ==>
            P.Better(r.plan, P.Plan(x, P.CostOf(cfg.cost, e.byteLen, P.Host, x))))
      && r.avoidedNs == if r.plan.action != P.Reconstruct then P.ReconstructCost(cfg.cost, e.byteLen) else 0
    ensures Reports(cfg, e, r.generation, r)
  {
    hide P.Costed, P.FirstSource;
    P.ReconstructIsPriced(cfg.cost, e.byteLen);
  }

  class TensorCache {
    const cfg: Config
    var entries: map<Digest, Entry>
    const arena: ArenaCell
    var diskRefs: map<Digest, nat>
    var storageUsed: nat
    var accelUsed: nat
    const host: BudgetCell
    const storage: BudgetCell
    var objectCount: nat
    var backends: map<BackendId, Backend>
    var disk: Disk
    /** The file-system steps taken so far. */
    ghost var log: seq<DiskOp>

    function View(): State
      reads this, arena, host, storage
    {
      State(entries, arena.View(), diskRefs, storageUsed, accelUsed, host.View(), storage.View(), objectCount, backends,
        disk)
    }

    ghost predicate Valid()
      reads this, arena
    {
      host != storage && Consistent(cfg.content, arena.View())
    }

    constructor (config: Config, d: Disk, hostCapacity: u64, storageCapacity: u64, devices: map<BackendId, Backend>)
      ensures Valid() && View() == Fresh(d, hostCapacity, storageCapacity, devices) && cfg == config && log == []
      ensures fresh(arena) && fresh(host) && fresh(storage)
    {
      cfg, entries, diskRefs, storageUsed, accelUsed, objectCount, backends, disk := config, map[], map[], 0, 0, 0,
        devices, d;
      arena := new ArenaCell();
      host := new BudgetCell(hostCapacity);
      storage := new BudgetCell(storageCapacity);
      log := [];
      new;
      assert Lengths(arena.View().blocks) == map[];
    }

    // ---- Files -----------------------------------------------------------------------------

    method Do(op: DiskOp)
      modifies this`disk, this`log
      ensures disk == Apply(old(disk), op) && log == old(log) + [op]
    {
      disk := Apply(disk, op);
      log := log + [op];
    }

    method WriteFile(path: Path, data: Bytes)
      modifies this`disk, this`log
      ensures var ops := AtomicWrite(old(disk), path, data); disk == ApplyAll(old(disk), ops) && log == old(log) + ops
    {
      ghost var d, done := disk, [];
      Do(Create(Temp(path)));
      StepOn(d, done, Create(Temp(path)));
      done := done + [Create(Temp(path))];
      Do(Fill(Temp(path), data));
      StepOn(d, done, Fill(Temp(path), data));
      done := done + [Fill(Temp(path), data)];
      assert path in disk <==> path in d;
      if path in disk {
        Do(Remove(path));
        StepOn(d, done, Remove(path));
        done := done + [Remove(path)];
      }
      Do(Rename(Temp(path), path));
      StepOn(d, done, Rename(Temp(path), path));
      assert done + [Rename(Temp(path), path)] == AtomicWrite(d, path, data);
    }

    method RemoveFile(path: Path)
      modifies this`disk, this`log
      ensures var ops := RemoveIfThere(old(disk), path); disk == ApplyAll(old(disk), ops) && log == old(log) + ops
    {
      if path in disk {
        Do(Remove(path));
        assert [Remove(path)][1..] == [];
      }
    }

    // ---- Blocks in memory ------------------------------------------------------------------

    /** What storing the blocks is charged: every occurrence of a block not in the arena. */
    method HostCharge(blocks: seq<BlockRef>) returns (n: nat)
      ensures n == Charged(arena.blocks.Keys, blocks)
    {
      n := 0;
      assert blocks[0..] == blocks;
      for i := 0 to |blocks|
        invariant n + Charged(arena.blocks.Keys, blocks[i..]) == Charged(arena.blocks.Keys, blocks)
      {
        assert blocks[i..][1..] == blocks[i + 1..];
        if blocks[i].hash !in arena.blocks {
          n := n + blocks[i].len;
        }
      }
    }

    method AcquireBlocks(payload: Bytes, blocks: seq<BlockRef>) returns (acquired: seq<BlockRef>)
      requires Valid() && Inside(payload, blocks) && |payload| < TWO_64
      requires forall b :: b in blocks ==> Describes(cfg.content, payload, b)
      modifies arena
      ensures Valid() && arena.View() == AcquireAll(cfg.content, old(arena.View()), payload, blocks)
      ensures acquired == blocks
    {
      hide AcquireAll, Describes, Lengths, Acquire;
      acquired := [];
      assert blocks[0..] == blocks;
      ghost var goal := AcquireAll(cfg.content, arena.View(), payload, blocks);
      for i := 0 to |blocks|
        invariant Valid() && acquired == blocks[..i]
        invariant Inside(payload, blocks[i..]) && AcquireAll(cfg.content, arena.View(), payload, blocks[i..]) == goal
      {
        var b := blocks[i];
        assert b in blocks;
        AcquireStep(cfg.content, arena.View(), payload, blocks, i);
        AcquireKeepsConsistent(cfg.content, arena.View(), Stretch(payload, b));
        var r := arena.AcquireAt(cfg.content, payload[b.offset..b.offset + b.len], b.offset);
        assert r == b by { DescribedRef(cfg.content, payload, b); }
        acquired := acquired + [r];
      }
      AcquireNone(cfg.content, arena.View(), payload, blocks[|blocks|..]);
    }

    /** Release references, taking each freed block off the budget; stops when the budget cannot give. */
    method ReleaseBlocks(refs: seq<BlockRef>) returns (ok: bool)
      requires Valid()
      modifies arena, host
      ensures Valid() && (arena.View(), host.View(), ok) == ReleaseAll(old(arena.View()), old(host.View()), refs)
    {
      assert refs[0..] == refs;
      ghost var goal := ReleaseAll(arena.View(), host.View(), refs);
      for i := 0 to |refs|
        invariant Valid() && ReleaseAll(arena.View(), host.View(), refs[i..]) == goal
      {
        assert refs[i..][0] == refs[i] && refs[i..][1..] == refs[i + 1..];
        ReleaseKeepsConsistent(cfg.content, arena.View(), refs[i].hash);
        var freed := arena.ReleaseOne(cfg.content, refs[i].hash);
        if freed {
          var enough := host.Sub(refs[i].len);
          if !enough {
            return false;
          }
        }
      }
      assert refs[|refs|..] == [];
      return true;
    }

    // ---- Blocks on disk --------------------------------------------------------------------

    method DiskCharge(blocks: seq<BlockRef>) returns (n: nat)
      ensures n == Charged(diskRefs.Keys, blocks)
    {
      n := 0;
      assert blocks[0..] == blocks;
      for i := 0 to |blocks|
        invariant n + Charged(diskRefs.Keys, blocks[i..]) == Charged(diskRefs.Keys, blocks)
      {
        assert blocks[i..][1..] == blocks[i + 1..];
        if blocks[i].hash !in diskRefs {
          n := n + blocks[i].len;
        }
      }
    }

    /** Count a reference to a block, writing its file first if it has none. */
    method PutBlock(h: Digest, data: Bytes) returns (ok: bool)
      modifies this`diskRefs, this`storageUsed, this`disk, this`log
      ensures var p := PutOne(old(diskRefs), old(storageUsed), old(disk), h, data);
        && PutState(diskRefs, storageUsed, p.ops, ok) == p && disk == ApplyAll(old(disk), p.ops)
        && log == old(log) + p.ops
    {
      if h in diskRefs {
        diskRefs := diskRefs[h := diskRefs[h] + 1];
        return true;
      }
      if BlockFile(h) in disk {
        if disk[BlockFile(h)] != data {
          return false;
        }
      } else {
        WriteFile(BlockFile(h), data);
      }
      diskRefs := diskRefs[h := 1];
      storageUsed := storageUsed + |data|;
      return true;
    }

    method PutAll(payload: Bytes, blocks: seq<BlockRef>) returns (ok: bool)
      requires Inside(payload, blocks)
      modifies this`diskRefs, this`storageUsed, this`disk, this`log
      ensures var p := PutBlocks(old(diskRefs), old(storageUsed), old(disk), payload, blocks);
        && PutState(diskRefs, storageUsed, p.ops, ok) == p && disk == ApplyAll(old(disk), p.ops)
        && log == old(log) + p.ops
    {
      hide PutOne, PutBlocks, ApplyAll, PutSoFar;
      ghost var d, l, done := disk, log, [];
      ghost var goal := PutBlocks(diskRefs, storageUsed, disk, payload, blocks);
      NoSteps(d);
      PutStarts(diskRefs, storageUsed, disk, payload, blocks);
      for i := 0 to |blocks|
        invariant disk == ApplyAll(d, done) && log == l + done
        invariant PutSoFar(goal, done, diskRefs, storageUsed, disk, payload, blocks, i)
      {
        var b := blocks[i];
        PutAdvances(goal, done, diskRefs, storageUsed, disk, payload, blocks, i);
        ghost var one := PutOne(diskRefs, storageUsed, disk, b.hash, Stretch(payload, b));
        StepsConcat(d, done, one.ops);
        done := done + one.ops;
        var fine := PutBlock(b.hash, payload[b.offset..b.offset + b.len]);
        assert log == l + done;
        if !fine {
          return false;
        }
      }
      PutEnds(goal, done, diskRefs, storageUsed, disk, payload, blocks);
      return true;
    }

    /** Give back one reference per block, deleting the file with the last. */
    method DropAll(blocks: seq<BlockRef>)
      modifies this`diskRefs, this`storageUsed, this`disk, this`log
      ensures var p := DropBlocks(old(diskRefs), old(storageUsed), if cfg.hasStore then old(disk) else map[], blocks);
        && DropState(diskRefs, storageUsed, p.ops) == p
        && (cfg.hasStore ==> disk == ApplyAll(old(disk), p.ops) && log == old(log) + p.ops)
        && (!cfg.hasStore ==> disk == old(disk) && log == old(log))
    {
      hide DropOne, DropBlocks, ApplyAll, DropSoFar;
      ghost var l, done, start := log, [], if cfg.hasStore then disk else map[];
      ghost var shadow := start;
      ghost var goal := DropBlocks(diskRefs, storageUsed, start, blocks);
      NoSteps(start);
      DropStarts(diskRefs, storageUsed, start, blocks);
      for i := 0 to |blocks|
        invariant shadow == ApplyAll(start, done)
        invariant if cfg.hasStore then disk == shadow && log == l + done else disk == old(disk) && log == l
        invariant DropSoFar(goal, done, diskRefs, storageUsed, shadow, blocks, i)
      {
        DropAdvances(goal, done, diskRefs, storageUsed, shadow, blocks, i);
        ghost var one := DropOne(diskRefs, storageUsed, shadow, blocks[i].hash, blocks[i].len);
        StepsConcat(start, done, one.ops);
        done := done + one.ops;
        DropBlock(blocks[i].hash, blocks[i].len, shadow);
        shadow := ApplyAll(shadow, one.ops);
        assert cfg.hasStore ==> log == l + done;
      }
      DropEnds(goal, done, diskRefs, storageUsed, shadow, blocks);
    }

    method DropBlock(h: Digest, len: nat, ghost shadow: Disk)
      requires cfg.hasStore ==> shadow == disk
      modifies this`diskRefs, this`storageUsed, this`disk, this`log
      ensures var p := DropOne(old(diskRefs), old(storageUsed), shadow, h, len);
        && DropState(diskRefs, storageUsed, p.ops) == p
        && (cfg.hasStore ==> disk == ApplyAll(old(disk), p.ops) && log == old(log) + p.ops)
        && (!cfg.hasStore ==> disk == old(disk) && log == old(log))
    {
      if h in diskRefs {
        if diskRefs[h] > 1 {
          diskRefs := diskRefs[h := diskRefs[h] - 1];
        } else {
          if cfg.hasStore {
            RemoveFile(BlockFile(h));
          }
          diskRefs := diskRefs - {h};
          storageUsed := SatSub(storageUsed, len);
        }
      }
    }

    // ---- Adding placements -----------------------------------------------------------------

    /** Split a payload and check the list. */
    method Split(bytes: Bytes) returns (r: Result<seq<BlockRef>>)
      requires |bytes| < TWO_64
      ensures var chunked := Chunk(cfg.content, bytes, cfg.blockSize);
        r == if chunked.Err? then chunked else if !Accepts(chunked.value, |bytes|) then Err(Error.Geometry) else chunked
      ensures r.Ok? ==> Inside(bytes, r.value) && forall b :: b in r.value ==> Describes(cfg.content, bytes, b)
    {
      r := ChunkPayload(cfg.content, bytes, cfg.blockSize);
      if r.Ok? {
        ChunkIsAccepted(cfg.content, bytes, cfg.blockSize);
        ChunkInRange(cfg.content, bytes, cfg.blockSize);
        var ok := ValidateBlockList(r.value, |bytes|);
        if !ok {
          r := Err(Error.Geometry);
        }
      }
    }

    /** Reserve the charge, acquire every block, commit the charge. */
    method StoreInHost(bytes: Bytes, blocks: seq<BlockRef>, charge: nat) returns (acquired: seq<BlockRef>, ok: bool)
      requires Valid() && |bytes| < TWO_64 && Inside(bytes, blocks)
      requires forall b :: b in blocks ==> Describes(cfg.content, bytes, b)
      modifies arena, host
      ensures Valid() && (View(), ok) == StoreBlocks(cfg, old(View()), bytes, blocks, charge)
      ensures ok ==> acquired == blocks
    {
      hide AcquireAll, Describes, Consistent;
      acquired := [];
      ok := host.TakeReservation(charge);
      if ok {
        acquired := AcquireBlocks(bytes, blocks);
        ok := host.Commit(charge);
      }
    }

    method PushPlacement(oid: Digest, p: Placement)
      requires oid in entries
      modifies this`entries
      ensures View() == Push(old(View()), oid, p)
    {
      var e := entries[oid];
      entries := entries[oid := e.(placements := e.placements + [p])];
    }

    method AddToHost(oid: Digest, bytes: Bytes) returns (r: Result<()>)
      requires Valid() && oid in entries && |bytes| < TWO_64
      modifies this`entries, arena, host
      ensures Valid() && Effect(View(), [], r) == AddHost(cfg, old(View()), oid, bytes)
    {
      hide Consistent, StoreBlocks, Charged, Accepts, Describes;
      var blocks :- Split(bytes);
      var charge := HostCharge(blocks);
      if charge > host.FreeBytes() {
        return Err(AdmissionRejected);
      }
      var acquired, ok := StoreInHost(bytes, blocks, charge);
      if !ok {
        return Err(Error.Accounting);
      }
      PushPlacement(oid, InHost(acquired));
      return Ok(());
    }

    method AddToDevice(oid: Digest, b: BackendId, bytes: Bytes) returns (r: Result<()>)
      requires oid in entries
      modifies this`entries, this`backends, this`accelUsed
      ensures Effect(View(), [], r) == AddDevice(old(View()), oid, b, bytes)
    {
      if b !in backends || backends[b].inUse + |bytes| > backends[b].capacity {
        return Err(Error.Backend);
      }
      backends := backends[b := backends[b].(inUse := backends[b].inUse + |bytes|)];
      accelUsed := accelUsed + |bytes|;
      PushPlacement(oid, OnDevice(b, bytes));
      return Ok(());
    }

    /** Count the blocks, writing the missing ones, and only then the manifest. */
    method AddToDisk(oid: Digest, bytes: Bytes) returns (r: Result<()>)
      requires Valid() && oid in entries && |bytes| < TWO_64
      modifies this, storage
      ensures Valid() && old(log) <= log
      ensures Effect(View(), log[|old(log)|..], r) == AddDisk(cfg, old(View()), oid, bytes)
    {
      hide Consistent, PutBlocks, Charged, Accepts, Describes, ApplyAll, AtomicWrite, MetaOf, Numel;
      if !cfg.hasStore {
        return Err(Error.Persistence);
      }
      var blocks :- Split(bytes);
      var charge := DiskCharge(blocks);
      if charge > storage.FreeBytes() {
        return Err(AdmissionRejected);
      }
      var ok := storage.TakeReservation(charge);
      if !ok {
        return Err(Error.Accounting);
      }
      ok := PutAll(bytes, blocks);
      if !ok {
        return Err(Error.Persistence);
      }
      ok := storage.Commit(charge);
      if !ok {
        return Err(Error.Accounting);
      }
      var numel := CountElements(entries[oid].compat.dims);
      if numel.Err? {
        return Err(Error.Geometry);
      }
      WriteFile(ManifestFile(oid), cfg.codec.write(MetaOf(oid, entries[oid], blocks, numel.value)));
      PushPlacement(oid, OnDisk);
      return Ok(());
    }

    method AddPlacementIn(oid: Digest, t: Tier, bytes: Bytes) returns (r: Result<()>)
      requires Valid()
      modifies this, arena, host, storage
      ensures Valid() && old(log) <= log
      ensures Effect(View(), log[|old(log)|..], r) == AddPlacement(cfg, old(View()), oid, t, bytes)
    {
      hide Consistent, AddHost, AddDevice, AddDisk;
      if oid !in entries {
        return Err(NotFound);
      }
      if |bytes| != entries[oid].byteLen {
        return Err(Integrity);
      }
      match t
      case Host => r := AddToHost(oid, bytes);
      case Accelerator(b) => r := AddToDevice(oid, b, bytes);
      case Persistent => r := AddToDisk(oid, bytes);
    }

    // ---- Removing placements ---------------------------------------------------------------

    method RemovePlacementFrom(oid: Digest, t: Tier) returns (r: Result<()>)
      requires Valid()
      modifies this, arena, host
      ensures Valid() && old(log) <= log
      ensures Effect(View(), log[|old(log)|..], r) == RemovePlacement(cfg, old(View()), oid, t)
    {
      hide Consistent, ReleaseAll, DropBlocks, ApplyAll, IndexOf, Without, RemoveIfThere;
      if oid !in entries || IndexOf(entries[oid].placements, t) == |entries[oid].placements| {
        return Err(Error.Residency);
      }
      var e := entries[oid];
      var i := IndexOf(e.placements, t);
      entries := entries[oid := e.(placements := Without(e.placements, i))];
      match e.placements[i]
      case InHost(refs) =>
        var ok := ReleaseBlocks(refs);
        return if ok then Ok(()) else Err(Error.Accounting);
      case OnDevice(b, data) =>
        if b !in backends {
          return Err(Error.Backend);
        }
        backends := backends[b := backends[b].(inUse := SatSub(backends[b].inUse, |data|))];
        accelUsed := SatSub(accelUsed, |data|);
        return Ok(());
      case OnDisk =>
        DropAll(e.blocks);
        if cfg.hasStore {
          RemoveFile(ManifestFile(oid));
        }
        return Ok(());
    }

    /** Remove placements one after another; a strict removal stops at the first failure. */
    method RemoveEach(oid: Digest, tiers: seq<Tier>, strict: bool) returns (r: Result<()>)
      requires Valid()
      modifies this, arena, host
      ensures Valid() && old(log) <= log
      ensures Effect(View(), log[|old(log)|..], r) == RemoveTiers(cfg, old(View()), oid, tiers, strict)
    {
      hide Consistent, RemovePlacement, RemoveTiers, TiersSoFar;
      ghost var goal, l := RemoveTiers(cfg, View(), oid, tiers, strict), log;
      TiersStart(cfg, View(), oid, tiers, strict);
      assert log[|l|..] == [];
      for i := 0 to |tiers|
        invariant Valid() && l <= log && TiersSoFar(goal, log[|l|..], cfg, View(), oid, tiers, strict, i)
      {
        TiersAdvance(goal, log[|l|..], cfg, View(), oid, tiers, strict, i);
        ghost var before := log;
        r := RemovePlacementFrom(oid, tiers[i]);
        assert log[|l|..] == before[|l|..] + log[|before|..];
        if strict && r.Err? {
          return r;
        }
      }
      TiersEnd(goal, log[|l|..], cfg, View(), oid, tiers, strict);
      return Ok(());
    }

    // ---- Eviction --------------------------------------------------------------------------

    /** The candidates, in whatever order the map yields its keys. */
    method GatherCandidates(now: u64) returns (cands: seq<Ev.Evictable>)
      ensures multiset(cands) == multiset(Candidates(cfg, now, entries))
    {
      hide Evicts, Candidate, CandidatesAmong, Candidates;
      cands := [];
      var todo := entries.Keys;
      CandidatesAmongEnds(cfg, now, entries);
      assert entries.Keys - todo == {};
      while todo != {}
        invariant todo <= entries.Keys
        invariant multiset(cands) == multiset(CandidatesAmong(cfg, now, entries, entries.Keys - todo))
        decreases |todo|
      {
        var oid :| oid in todo;
        CandidatesGrow(cfg, now, entries, entries.Keys - todo, oid);
        assert entries.Keys - (todo - {oid}) == (entries.Keys - todo) + {oid};
        if Evicts(entries[oid]) {
          cands := cands + [Candidate(cfg, now, oid, entries[oid])];
        }
        todo := todo - {oid};
      }
      assert entries.Keys - {} == entries.Keys;
    }

    /** Evict in keep-score order until the goal is reached. */
    method EvictUntil(goal: Goal, now: u64)
      requires Valid()
      modifies this, arena, host
      ensures Valid() && log == old(log)
      ensures View() == EvictInOrder(cfg, old(View()), EvictionList(cfg, now, old(View())), goal)
    {
      hide Consistent, RemoveTiers, Candidates, Candidate, Ev.EvictionOrder, Reached;
      var cands := GatherCandidates(now);
      CandidateIdsDetermine(cfg, now, entries);
      Ev.AnyEnumerationGivesOrder(ScoreBy(cfg), Candidates(cfg, now, entries), cands);
      var order := Ids(Ev.EvictionOrder(ScoreBy(cfg), cands));
      ghost var end := EvictInOrder(cfg, View(), order, goal);
      assert order[0..] == order;
      for i := 0 to |order|
        invariant Valid() && log == old(log) && EvictInOrder(cfg, View(), order[i..], goal) == end
      {
        if Reached(goal, View()) {
          return;
        }
        assert order[i..][0] == order[i] && order[i..][1..] == order[i + 1..];
        if order[i] in entries {
          var tiers := Volatile(Tiers(entries[order[i]].placements));
          O.VolatileMembers(Tiers(entries[order[i]].placements), P.Persistent);
          VolatileTouchesNoFile(cfg, View(), order[i], tiers, false);
          var _ := RemoveEach(order[i], tiers, false);
        }
      }
      assert order[|order|..] == [];
    }

    // ---- Public operations -----------------------------------------------------------------

    /** The checks of a registration, before the state is touched. */
    method CheckInput(k: CompatKey, payload: Bytes) returns (r: Result<(seq<BlockRef>, u64)>)
      ensures r == CheckPayload(cfg, k, payload)
      ensures r.Ok? ==> |payload| < TWO_64 && Inside(payload, r.value.0) && forall b :: b in r.value.0 ==>
        Describes(cfg.content, payload, b)
    {
      hide Describes, Accepts;
      var byteLen :- ByteLen(k.dims, ElementSize(k.dtype));
      if byteLen != |payload| {
        return Err(Error.Geometry);
      }
      var numel :- CountElements(k.dims);
      var blocks :- Split(payload);
      return Ok((blocks, numel));
    }

    method RegisterObject(a: Address, k: CompatKey, payload: Bytes, now: u64) returns (r: Result<Digest>)
      requires Valid()
      modifies this, arena, host
      ensures Valid() && log == old(log) && Effect(View(), [], r) == Register(cfg, old(View()), a, k, payload, now)
    {
      hide Consistent, CheckPayload, StoreBlocks, Charged, Admits, NewEntry, EvictInOrder, EvictionList, Describes;
      var oid := cfg.name(a);
      var checked :- CheckInput(k, payload);
      var (blocks, numel) := checked;
      if oid in entries {
        return Err(Exists);
      }
      if !Admits(cfg, |payload|) {
        return Err(AdmissionRejected);
      }
      var charge := HostCharge(blocks);
      if charge > host.FreeBytes() {
        EvictUntil(FreeAtLeast(charge), now);
        if charge > host.FreeBytes() {
          return Err(AdmissionRejected);
        }
      }
      var acquired, ok := StoreInHost(payload, blocks, charge);
      if !ok {
        return Err(Error.Accounting);
      }
      assert acquired == blocks;
      entries := entries[oid := NewEntry(cfg, a, k, payload, numel, acquired, now)];
      objectCount := objectCount + 1;
      EvictUntil(WithinCapacity, now);
      return Ok(oid);
    }

    /** A hit counts the reuse and reports where the object is and the cheapest way to have it in host memory. */
    method LookupObject(a: Address, k: CompatKey, now: u64) returns (r: Result<Report>)
      modifies this`entries
      ensures Effect(View(), [], if r.Ok? then Ok(r.value.oid) else Err(r.error)) ==
        CacheSpec.Lookup(cfg, old(View()), a, k, now)
      ensures r.Ok? ==> r.value.oid in old(entries) && Reports(cfg, old(entries)[r.value.oid], a.generation, r.value)
    {
      hide IsSource, Reports;
      var oid := cfg.name(a);
      if oid !in entries {
        return Err(NotFound);
      }
      var e := entries[oid];
      if e.compatId != cfg.identify(k) {
        return Err(Error.Compatibility);
      }
      var tiers := Tiers(e.placements);
      var source := ReportedSource(tiers);
      entries := entries[oid := e.(reuseCount := SatAdd(e.reuseCount, 1), lastUseNs := now)];
      var plan := P.Decide(cfg.cost, e.byteLen, P.Host, tiers, false);
      var avoided := if plan.action != P.Reconstruct then P.ReconstructCost(cfg.cost, e.byteLen) else 0;
      var report := Report(oid, a.generation, source, e.byteLen, avoided, plan);
      ReportIsRight(cfg, e, report);
      return Ok(report);
    }

    method RestoreObject(oid: Digest, t: Tier, now: u64) returns (r: Result<Bytes>)
      requires Valid()
      modifies this, arena, host, storage
      ensures Valid() && old(log) <= log
      ensures Effect(View(), log[|old(log)|..], r) == Restore(cfg, old(View()), oid, t, now)
    {
      hide Consistent, Materialize, AddPlacement, EvictInOrder, EvictionList;
      if oid !in entries {
        return Err(NotFound);
      }
      if entries[oid].quarantined {
        return Err(Integrity);
      }
      var bytes :- Materialize(cfg, View(), oid);
      if !HasTier(entries[oid], t) {
        var added := AddPlacementIn(oid, t, bytes);
        if added.Err? {
          return Err(added.error);
        }
      }
      EvictUntil(WithinCapacity, now);
      return Ok(bytes);
    }

    method PromoteObject(oid: Digest, t: Tier, now: u64) returns (r: Result<()>)
      requires Valid()
      modifies this, arena, host, storage
      ensures Valid() && old(log) <= log
      ensures Effect(View(), log[|old(log)|..], r) == Promote(cfg, old(View()), oid, t, now)
    {
      hide Consistent, Restore;
      if oid !in entries {
        return Err(NotFound);
      }
      if HasTier(entries[oid], t) {
        return Ok(());
      }
      var bytes := RestoreObject(oid, t, now);
      return if bytes.Err? then Err(bytes.error) else Ok(());
    }

    /** Make sure there is a placement in the tier. */
    method EnsureIn(oid: Digest, t: Tier) returns (r: Result<()>)
      requires Valid()
      modifies this, arena, host, storage
      ensures Valid() && old(log) <= log && Effect(View(), log[|old(log)|..], r) == Ensure(cfg, old(View()), oid, t)
    {
      hide Consistent, Materialize, AddPlacement;
      if oid !in entries {
        return Err(NotFound);
      }
      if HasTier(entries[oid], t) {
        return Ok(());
      }
      var bytes :- Materialize(cfg, View(), oid);
      r := AddPlacementIn(oid, t, bytes);
    }

    method DemoteObject(oid: Digest, from: Tier) returns (r: Result<()>)
      requires Valid()
      modifies this, arena, host, storage
      ensures Valid() && old(log) <= log && Effect(View(), log[|old(log)|..], r) == Demote(cfg, old(View()), oid, from)
    {
      hide Consistent, Ensure, RemovePlacement, HasTier;
      if oid !in entries {
        return Err(NotFound);
      }
      if !HasTier(entries[oid], from) {
        return Err(Error.Residency);
      }
      var target :- NextLower(from);
      ghost var l := log;
      r := EnsureIn(oid, target);
      if r.Ok? {
        ghost var mid := log;
        r := RemovePlacementFrom(oid, from);
        assert log[|l|..] == mid[|l|..] + log[|mid|..];
      }
    }

    method PersistObject(oid: Digest) returns (r: Result<()>)
      requires Valid()
      modifies this, arena, host, storage
      ensures Valid() && old(log) <= log && Effect(View(), log[|old(log)|..], r) == Persist(cfg, old(View()), oid)
    {
      hide Consistent, Ensure;
      r := EnsureIn(oid, P.Persistent);
      if r.Ok? && oid in entries {
        entries := entries[oid := entries[oid].(durable := true)];
      }
    }

    method EvictObject(oid: Digest) returns (r: Result<()>)
      requires Valid()
      modifies this, arena, host
      ensures Valid() && old(log) <= log && Effect(View(), log[|old(log)|..], r) == Evict(cfg, old(View()), oid)
    {
      hide Consistent, RemoveTiers;
      if oid !in entries {
        return Err(NotFound);
      }
      r := RemoveEach(oid, Volatile(Tiers(entries[oid].placements)), true);
    }

    method DeleteObject(oid: Digest) returns (r: Result<()>)
      requires Valid()
      modifies this, arena, host
      ensures Valid() && old(log) <= log && Effect(View(), log[|old(log)|..], r) == Delete(cfg, old(View()), oid)
    {
      hide Consistent, RemoveTiers, ApplyAll, RemoveIfThere;
      if oid !in entries {
        return Err(NotFound);
      }
      r := RemoveEach(oid, Tiers(entries[oid].placements), true);
      if r.Err? {
        return r;
      }
      if oid in entries {
        objectCount := SatSub(objectCount, 1);
      }
      entries := entries - {oid};
      ghost var l, mid := old(log), log;
      if cfg.hasStore {
        RemoveFile(ManifestFile(oid));
        assert log[|l|..] == mid[|l|..] + log[|mid|..];
      } else {
        NoSteps(disk);
        assert log[|l|..] == mid[|l|..] + [];
      }
      return Ok(());
    }

    /** Compare every placement with the preferred one. */
    method VerifyObject(oid: Digest) returns (r: Result<()>)
      ensures r == Verify(cfg, View(), oid)
    {
      hide Materialize, MaterializeFrom;
      var bytes :- Materialize(cfg, View(), oid);
      MaterializeNeedsEntry(cfg, View(), oid);
      if |bytes| != entries[oid].byteLen {
        return Err(Integrity);
      }
      var tiers := Tiers(entries[oid].placements);
      assert tiers[0..] == tiers;
      for i := 0 to |tiers|
        invariant AllAgree(cfg, View(), oid, bytes, tiers[i..]) == AllAgree(cfg, View(), oid, bytes, tiers)
      {
        assert tiers[i..][0] == tiers[i] && tiers[i..][1..] == tiers[i + 1..];
        var b :- MaterializeFrom(cfg, View(), oid, tiers[i]);
        if b != bytes {
          return Err(Integrity);
        }
      }
      return Ok(());
    }

    // ---- Recovery --------------------------------------------------------------------------

    /** Count one storage reference per block of a recovered manifest. */
    method CountAll(blocks: seq<BlockRef>)
      modifies this`diskRefs, this`storageUsed
      ensures (diskRefs, storageUsed) == CountBlocks(old(diskRefs), old(storageUsed), blocks)
    {
      ghost var goal := CountBlocks(diskRefs, storageUsed, blocks);
      assert blocks[0..] == blocks;
      for i := 0 to |blocks|
        invariant CountBlocks(diskRefs, storageUsed, blocks[i..]) == goal
      {
        var b := blocks[i];
        assert blocks[i..][0] == b && blocks[i..][1..] == blocks[i + 1..];
        if b.hash in diskRefs {
          diskRefs := diskRefs[b.hash := diskRefs[b.hash] + 1];
        } else {
          diskRefs := diskRefs[b.hash := 1];
          storageUsed := storageUsed + b.len;
        }
      }
    }

    /** Read the manifests in the order the directory lists them. */
    method Recover(listing: seq<Digest>, now: u64)
      modifies this`entries, this`diskRefs, this`storageUsed, this`objectCount
      ensures View() == RecoverAll(cfg, old(View()), listing, now)
    {
      hide CountBlocks, BlocksExist, M.ObjectIdFromHex;
      ghost var goal := RecoverAll(cfg, View(), listing, now);
      assert listing[0..] == listing;
      for i := 0 to |listing|
        invariant RecoverAll(cfg, View(), listing[i..], now) == goal
      {
        assert listing[i..][0] == listing[i] && listing[i..][1..] == listing[i + 1..];
        var path := ManifestFile(listing[i]);
        if path in disk {
          var m := cfg.codec.read(disk[path]);
          if m.Ok? {
            Admit(m.value, now);
          }
        }
      }
    }

    method Admit(m: M.Meta, now: u64)
      modifies this`entries, this`diskRefs, this`storageUsed, this`objectCount
      ensures View() == RecoverOne(cfg, old(View()), m, now)
    {
      hide CountBlocks, M.ObjectIdFromHex;
      var oid := M.ObjectIdFromHex(m.objectId);
      if oid.Err? {
        return;
      }
      if !BlocksExist(disk, m.blocks) {
        return;
      }
      CountAll(m.blocks);
      var e := Entry(Address(m.namespace, m.key, m.generation), m.compat, cfg.identify(m.compat), m.byteLen, m.numel,
                     m.blocks, [OnDisk], m.createdNs, now, 0, true, false);
      entries := entries[oid.value := e];
      objectCount := objectCount + 1;
    }
  }

  lemma MaterializeNeedsEntry(cfg: Config, s: State, oid: Digest)
    requires Materialize(cfg, s, oid).Ok?
    ensures oid in s.entries
  {
  }

  lemma AcquireStep(c: Content, a: Arena, payload: Bytes, blocks: seq<BlockRef>, i: nat)
    requires i < |blocks| && Inside(payload, blocks)
    ensures Inside(payload, blocks[i..]) && Inside(payload, blocks[i + 1..])
    ensures AcquireAll(c, a, payload, blocks[i..]) ==
      AcquireAll(c, Acquire(c, a, Stretch(payload, blocks[i])), payload, blocks[i + 1..])
  {
    hide Acquire;
    assert blocks[i..][0] == blocks[i] && blocks[i..][1..] == blocks[i + 1..];
  }

  lemma AcquireNone(c: Content, a: Arena, payload: Bytes, blocks: seq<BlockRef>)
    requires blocks == []
    ensures AcquireAll(c, a, payload, blocks) == a
  {
  }

  lemma DescribedRef(c: Content, payload: Bytes, b: BlockRef)
    requires Describes(c, payload, b)
    ensures BlockRef(c.hash(Stretch(payload, b)), b.offset, |Stretch(payload, b)|, c.crc(Stretch(payload, b))) == b
  {
  }

  lemma StepOn(d: Disk, done: seq<DiskOp>, op: DiskOp)
    ensures ApplyAll(d, done + [op]) == Apply(ApplyAll(d, done), op)
  {
    hide Apply;
    StepsConcat(d, done, [op]);
    assert [op][1..] == [];
    assert ApplyAll(ApplyAll(d, done), [op]) == ApplyAll(Apply(ApplyAll(d, done), op), []);
  }

  lemma NoSteps(d: Disk)
    ensures ApplyAll(d, []) == d
  {
  }

  /** Putting the blocks from `i` on, after the steps `done`, is putting them all. */
  ghost predicate PutSoFar(goal: PutState, done: seq<DiskOp>, refs: map<Digest, nat>, used: nat, d: Disk,
                           payload: Bytes, blocks: seq<BlockRef>, i: nat)
    requires Inside(payload, blocks)
  {
    && i <= |blocks| && Inside(payload, blocks[i..])
    && var p := PutBlocks(refs, used, d, payload, blocks[i..]); p.(ops := done + p.ops) == goal
  }

  lemma PutStarts(refs: map<Digest, nat>, used: nat, d: Disk, payload: Bytes, blocks: seq<BlockRef>)
    requires Inside(payload, blocks)
    ensures PutSoFar(PutBlocks(refs, used, d, payload, blocks), [], refs, used, d, payload, blocks, 0)
  {
    hide PutBlocks;
    var p := PutBlocks(refs, used, d, payload, blocks);
    assert blocks[0..] == blocks && [] + p.ops == p.ops;
  }

  lemma PutAdvances(goal: PutState, done: seq<DiskOp>, refs: map<Digest, nat>, used: nat, d: Disk, payload: Bytes,
                    blocks: seq<BlockRef>, i: nat)
    requires Inside(payload, blocks) && i < |blocks| && PutSoFar(goal, done, refs, used, d, payload, blocks, i)
    ensures var one := PutOne(refs, used, d, blocks[i].hash, Stretch(payload, blocks[i]));
      if !one.ok then goal == one.(ops := done + one.ops)
      else PutSoFar(goal, done + one.ops, one.refs, one.used, ApplyAll(d, one.ops), payload, blocks, i + 1)
  {
    hide PutOne, ApplyAll;
    assert blocks[i..][0] == blocks[i] && blocks[i..][1..] == blocks[i + 1..];
    var one := PutOne(refs, used, d, blocks[i].hash, Stretch(payload, blocks[i]));
    if one.ok {
      var q := PutBlocks(one.refs, one.used, ApplyAll(d, one.ops), payload, blocks[i + 1..]);
      assert done + (one.ops + q.ops) == (done + one.ops) + q.ops;
    }
  }

  lemma PutEnds(goal: PutState, done: seq<DiskOp>, refs: map<Digest, nat>, used: nat, d: Disk, payload: Bytes,
                blocks: seq<BlockRef>)
    requires Inside(payload, blocks) && PutSoFar(goal, done, refs, used, d, payload, blocks, |blocks|)
    ensures goal == PutState(refs, used, done, true)
  {
    assert blocks[|blocks|..] == [] && done + [] == done;
  }

  /** Dropping the blocks from `i` on, after the steps `done`, is dropping them all. */
  ghost predicate DropSoFar(goal: DropState, done: seq<DiskOp>, refs: map<Digest, nat>, used: nat, d: Disk,
                            blocks: seq<BlockRef>, i: nat) {
    i <= |blocks| && var p := DropBlocks(refs, used, d, blocks[i..]); p.(ops := done + p.ops) == goal
  }

  lemma DropStarts(refs: map<Digest, nat>, used: nat, d: Disk, blocks: seq<BlockRef>)
    ensures DropSoFar(DropBlocks(refs, used, d, blocks), [], refs, used, d, blocks, 0)
  {
    hide DropBlocks;
    var p := DropBlocks(refs, used, d, blocks);
    assert blocks[0..] == blocks && [] + p.ops == p.ops;
  }

  lemma DropAdvances(goal: DropState, done: seq<DiskOp>, refs: map<Digest, nat>, used: nat, d: Disk,
                     blocks: seq<BlockRef>, i: nat)
    requires i < |blocks| && DropSoFar(goal, done, refs, used, d, blocks, i)
    ensures var one := DropOne(refs, used, d, blocks[i].hash, blocks[i].len);
      DropSoFar(goal, done + one.ops, one.refs, one.used, ApplyAll(d, one.ops), blocks, i + 1)
  {
    hide DropOne, ApplyAll;
    assert blocks[i..][0] == blocks[i] && blocks[i..][1..] == blocks[i + 1..];
    var one := DropOne(refs, used, d, blocks[i].hash, blocks[i].len);
    var q := DropBlocks(one.refs, one.used, ApplyAll(d, one.ops), blocks[i + 1..]);
    assert done + (one.ops + q.ops) == (done + one.ops) + q.ops;
  }

  lemma DropEnds(goal: DropState, done: seq<DiskOp>, refs: map<Digest, nat>, used: nat, d: Disk, blocks: seq<BlockRef>)
    requires DropSoFar(goal, done, refs, used, d, blocks, |blocks|)
    ensures goal == DropState(refs, used, done)
  {
    assert blocks[|blocks|..] == [] && done + [] == done;
  }

  // ---- Removing several placements ---------------------------------------------------------

  /** Removing the tiers from `i` on, after the steps `done`, is removing them all. */
  ghost predicate TiersSoFar(goal: Effect<()>, done: seq<DiskOp>, cfg: Config, s: State, oid: Digest, tiers: seq<Tier>,
                             strict: bool, i: nat) {
    i <= |tiers| && var x := RemoveTiers(cfg, s, oid, tiers[i..], strict); x.(ops := done + x.ops) == goal
  }

  lemma TiersStart(cfg: Config, s: State, oid: Digest, tiers: seq<Tier>, strict: bool)
    ensures TiersSoFar(RemoveTiers(cfg, s, oid, tiers, strict), [], cfg, s, oid, tiers, strict, 0)
  {
    hide RemoveTiers;
    var x := RemoveTiers(cfg, s, oid, tiers, strict);
    assert tiers[0..] == tiers && [] + x.ops == x.ops;
  }

  lemma TiersAdvance(goal: Effect<()>, done: seq<DiskOp>, cfg: Config, s: State, oid: Digest, tiers: seq<Tier>,
                     strict: bool, i: nat)
    requires i < |tiers| && TiersSoFar(goal, done, cfg, s, oid, tiers, strict, i)
    ensures var y := RemovePlacement(cfg, s, oid, tiers[i]);
      if strict && y.result.Err? then goal == y.(ops := done + y.ops)
      else TiersSoFar(goal, done + y.ops, cfg, y.state, oid, tiers, strict, i + 1)
  {
    hide RemovePlacement;
    assert tiers[i..][0] == tiers[i] && tiers[i..][1..] == tiers[i + 1..];
    var y := RemovePlacement(cfg, s, oid, tiers[i]);
    var z := RemoveTiers(cfg, y.state, oid, tiers[i + 1..], strict);
    assert done + (y.ops + z.ops) == (done + y.ops) + z.ops;
  }

  lemma TiersEnd(goal: Effect<()>, done: seq<DiskOp>, cfg: Config, s: State, oid: Digest, tiers: seq<Tier>,
                 strict: bool)
    requires TiersSoFar(goal, done, cfg, s, oid, tiers, strict, |tiers|)
    ensures goal == Effect(s, done, Ok(()))
  {
    assert tiers[|tiers|..] == [] && done + [] == done;
  }

  /** Only removing a storage placement touches files. */
  lemma {:induction false} VolatileTouchesNoFile(cfg: Config, s: State, oid: Digest, tiers: seq<Tier>, strict: bool)
    requires P.Persistent !in tiers
    ensures RemoveTiers(cfg, s, oid, tiers, strict).ops == []
    decreases |tiers|
  {
    hide ReleaseAll, DropBlocks, ApplyAll, IndexOf, Without;
    if tiers != [] {
      var y := RemovePlacement(cfg, s, oid, tiers[0]);
      assert tiers[0] in tiers && forall t :: t in tiers[1..] ==> t in tiers;
      assert y.ops == [];
      if !(strict && y.result.Err?) {
        VolatileTouchesNoFile(cfg, y.state, oid, tiers[1..], strict);
      }
    }
  }

  // ---- Candidates --------------------------------------------------------------------------

  ghost function CandidatesAmong(cfg: Config, now: u64, entries: map<Digest, Entry>, keys: set<Digest>)
    : set<Ev.Evictable> {
    set oid | oid in entries && oid in keys && Evicts(entries[oid]) :: Candidate(cfg, now, oid, entries[oid])
  }

  lemma CandidatesAmongEnds(cfg: Config, now: u64, entries: map<Digest, Entry>)
    ensures CandidatesAmong(cfg, now, entries, {}) == {}
    ensures CandidatesAmong(cfg, now, entries, entries.Keys) == Candidates(cfg, now, entries)
  {
    hide Evicts, Candidate;
  }

  lemma CandidatesGrow(cfg: Config, now: u64, entries: map<Digest, Entry>, keys: set<Digest>, oid: Digest)
    requires oid in entries && oid !in keys
    ensures var c := Candidate(cfg, now, oid, entries[oid]);
      var before, after := CandidatesAmong(cfg, now, entries, keys), CandidatesAmong(cfg, now, entries, keys + {oid});
      c !in before && after == if Evicts(entries[oid]) then before + {c} else before
  {
    hide Evicts;
  }

  lemma CandidateIdsDetermine(cfg: Config, now: u64, entries: map<Digest, Entry>)
    ensures var s := Candidates(cfg, now, entries); forall a, b :: a in s && b in s && a.id == b.id ==> a == b
  {
    hide Evicts;
  }

  // ---- File-system steps -------------------------------------------------------------------

  lemma {:induction false} StepsConcat(d: Disk, x: seq<DiskOp>, y: seq<DiskOp>)
    ensures ApplyAll(d, x + y) == ApplyAll(ApplyAll(d, x), y)
    decreases |x|
  {
    hide Apply;
    if x == [] {
      assert x + y == y;
    } else {
      assert (x + y)[1..] == x[1..] + y;
      StepsConcat(Apply(d, x[0]), x[1..], y);
    }
  }
}

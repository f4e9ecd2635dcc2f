/** Runs in which the host account is exact, or at least safe: every operation keeps it, and so does every crash. */
module CacheExactness {
  import opened Prelude
  import opened Storage
  import opened Accounting
  import opened BlockArena
  import opened Compat
  import opened CacheSpec
  import opened Manifests
  import opened CacheLoads
  import opened DiskSafety
  import opened CacheInvariant
  import opened CacheOperations
  import opened CacheRecovery
  import opened CacheRuns
  import opened CacheCrashes
  import opened CacheAccounting
  import opened CacheDurability
  import P = Planner

  // ---- The side conditions -----------------------------------------------------------------

  /** Making room for the registration frees no block that the incoming payload needs. */
  ghost predicate KeepsIncoming(cfg: Config, s: State, op: Op, now: u64) {
    op.DoRegister? ==>
      var bs := BlocksFor(cfg, op.compat, op.payload);
      var s1 := WithRoom(cfg, s, ChargeFor(cfg, s, op.compat, op.payload), now);
      forall i :: 0 <= i < |bs| && bs[i].hash in s.arena.blocks ==> bs[i].hash in s1.arena.blocks
  }

  /** The registered payload has no block twice. */
  ghost predicate RepeatFree(cfg: Config, op: Op) {
    op.DoRegister? ==> NoRepeat(BlocksFor(cfg, op.compat, op.payload))
  }

  ghost predicate Fair(cfg: Config, s: State, op: Op, now: u64, tight: bool) {
    KeepsIncoming(cfg, s, op, now) && (tight ==> RepeatFree(cfg, op))
  }

  ghost predicate NoneRepeats(r: Rules, a: Registry) {
    forall oid :: oid in a ==> NoRepeat(r.blocks(a[oid]))
  }

  // ---- Adding a placement ------------------------------------------------------------------

  lemma AddHostShape(cfg: Config, r: Rules, s: State, oid: Digest, obj: Object)
    requires Usable(cfg, r, oid, obj) && oid in s.entries && Sound(s.host)
    ensures var x := AddHost(cfg, s, oid, obj.payload); var bs := r.blocks(obj);
      var charge := Charged(s.arena.blocks.Keys, bs);
      && (x.result.Ok? ==>
          && charge <= Free(s.host) && s.host.used + charge <= U64_MAX
          && x.state ==
             Push(s.(arena := AcquireAll(cfg.content, s.arena, obj.payload, bs),
               host := s.host.(used := s.host.used + charge)), oid, InHost(bs)))
      && (x.result.Err? ==> x.state == s) && (charge <= Free(s.host) ==> x.result.Ok?)
  {
    hide AcquireAll, Charged, Chunk, Accepts;
    ReservationCommits(s.host, Charged(s.arena.blocks.Keys, r.blocks(obj)));
  }

  lemma CountedAddHost(cfg: Config, r: Rules, a: Registry, m: Registry, s: State, oid: Digest, tight: bool)
    requires Serves(cfg, r) && StateOk(r, a, m, s) && Counted(s, tight) && (tight ==> NoneRepeats(r, a))
    requires oid in s.entries && oid in a
    ensures |a[oid].payload| < TWO_64 && Counted(AddHost(cfg, s, oid, a[oid].payload).state, tight)
  {
    hide Serves, StateOk, Usable, TotalLoad, AcquireAll, AddHost, RefCount, Consistent, Within, NoCollision, NoRepeat;
    var bs := r.blocks(a[oid]);
    EntryFacts(cfg, r, a, m, s, oid);
    ArenaFacts(r, a, m, s);
    UsablePositive(cfg, r, oid, a[oid]);
    AddHostShape(cfg, r, s, oid, a[oid]);
    var x := AddHost(cfg, s, oid, a[oid].payload);
    if x.result.Ok? {
      AcquireCounted(cfg, r, s.arena, s.host, TotalLoad(s.entries), oid, a[oid], Charged(s.arena.blocks.Keys, bs));
      TotalPush(s.entries, oid, InHost(bs));
      ChargeExactIffNoRepeat(s.arena.blocks.Keys, bs);
      if tight {
        NoRepeatIsNoNewRepeat(s.arena.blocks.Keys, bs);
      }
    }
  }

  lemma NoRepeatIsNoNewRepeat(have: set<Digest>, blocks: seq<BlockRef>)
    requires NoRepeat(blocks)
    ensures NoNewRepeat(have, blocks)
  {
  }

  /** A placement outside host memory leaves the account alone. */
  lemma CountedElsewhere(s: State, s': State, oid: Digest, p: Placement, tight: bool)
    requires Counted(s, tight) && oid in s.entries && !p.InHost?
    requires s'.arena == s.arena && s'.host == s.host && s'.entries == Push(s, oid, p).entries
    ensures Counted(s', tight)
  {
    hide HostCounted, TotalLoad, Load;
    TotalPush(s.entries, oid, p);
    match p
    case OnDevice(b, data) =>
      CountedIgnores(s.arena, s.host, TotalLoad(s.entries), tight, b, data, s.entries[oid].blocks);
    case OnDisk =>
      CountedIgnores(s.arena, s.host, TotalLoad(s.entries), tight, [], [], s.entries[oid].blocks);
      DiskLoad(s.entries[oid].blocks);
  }

  lemma AddElsewhereShape(cfg: Config, s: State, oid: Digest, t: Tier, bytes: Bytes)
    requires t != P.Host
    ensures var x := AddPlacement(cfg, s, oid, t, bytes);
      && x.state.arena == s.arena && x.state.host == s.host
      && (x.result.Ok? ==>
         oid in s.entries && exists p: Placement :: !p.InHost? && x.state.entries == Push(s, oid, p).entries)
      && (x.result.Err? ==> x.state.entries == s.entries)
  {
    hide PutBlocks, AtomicWrite, ApplyAll, Chunk, Charged, Accepts, AddHost;
    if oid in s.entries && |bytes| == s.entries[oid].byteLen && t.Accelerator? {
      assert AddDevice(s, oid, t.backend, bytes).result.Ok? ==>
        AddDevice(s, oid, t.backend, bytes).state.entries == Push(s, oid, OnDevice(t.backend, bytes)).entries;
    }
    if oid in s.entries && |bytes| == s.entries[oid].byteLen && t.Persistent? {
      assert AddDisk(cfg, s, oid, bytes).result.Ok? ==>
        AddDisk(cfg, s, oid, bytes).state.entries == Push(s, oid, OnDisk).entries;
    }
  }

  lemma CountedAddPlacement(cfg: Config, r: Rules, a: Registry, m: Registry, s: State, oid: Digest, t: Tier,
                            tight: bool)
    requires Serves(cfg, r) && StateOk(r, a, m, s) && Counted(s, tight) && (tight ==> NoneRepeats(r, a))
    requires oid in s.entries && oid in a
    ensures Counted(AddPlacement(cfg, s, oid, t, a[oid].payload).state, tight)
  {
    hide Serves, StateOk, HostCounted, TotalLoad, AddHost, AddDevice, AddDisk, NoneRepeats;
    var x := AddPlacement(cfg, s, oid, t, a[oid].payload);
    if t == P.Host {
      CountedAddHost(cfg, r, a, m, s, oid, tight);
    } else {
      AddElsewhereShape(cfg, s, oid, t, a[oid].payload);
      if x.result.Ok? {
        var p: Placement :| !p.InHost? && x.state.entries == Push(s, oid, p).entries;
        CountedElsewhere(s, x.state, oid, p, tight);
      }
    }
  }

  // ---- The operations ---------------------------------------------------------------------

  lemma EnsureKeeps(cfg: Config, r: Rules, a: Registry, m: Registry, s: State, oid: Digest, t: Tier, tight: bool)
    requires Serves(cfg, r) && StateOk(r, a, m, s) && Counted(s, tight) && (tight ==> NoneRepeats(r, a))
    ensures var x := Ensure(cfg, s, oid, t); Counted(x.state, tight)
  {
    hide Serves, StateOk, Counted, AddPlacement, Materialize, NoneRepeats;
    EntryKeys(r, a, m, s);
    if oid in s.entries && !HasTier(s.entries[oid], t) {
      MaterializeYieldsPayload(cfg, r, a, m, s, oid);
      if s.entries[oid].placements != [] {
        CountedAddPlacement(cfg, r, a, m, s, oid, t, tight);
      }
    }
  }

  lemma RestoreKeeps(cfg: Config, r: Rules, a: Registry, m: Registry, s: State, oid: Digest, t: Tier, now: u64,
                     tight: bool)
    requires Serves(cfg, r) && StateOk(r, a, m, s) && Counted(s, tight) && (tight ==> NoneRepeats(r, a))
    ensures var x := Restore(cfg, s, oid, t, now); Counted(x.state, tight)
    ensures var y := Promote(cfg, s, oid, t, now); Counted(y.state, tight)
  {
    hide Serves, StateOk, Counted, AddPlacement, Materialize, EnforceCapacity, NoneRepeats;
    EntryKeys(r, a, m, s);
    if oid in s.entries && !s.entries[oid].quarantined {
      MaterializeYieldsPayload(cfg, r, a, m, s, oid);
      EnforceCapacityIsIdle(cfg, r, a, m, s, now);
      if s.entries[oid].placements != [] && !HasTier(s.entries[oid], t) {
        CountedAddPlacement(cfg, r, a, m, s, oid, t, tight);
        KeptAddPlacement(cfg, r, a, m, s, oid, t);
        var x := AddPlacement(cfg, s, oid, t, a[oid].payload);
        KeptState(r, a, m, s, x.state, x.ops, {});
        EnforceCapacityIsIdle(cfg, r, a, DescribedAfter(m, a, x.ops), x.state, now);
      }
    }
  }

  lemma DemoteKeeps(cfg: Config, r: Rules, a: Registry, m: Registry, s: State, oid: Digest, from: Tier, tight: bool)
    requires Serves(cfg, r) && StateOk(r, a, m, s) && Counted(s, tight) && (tight ==> NoneRepeats(r, a))
    ensures var x := Demote(cfg, s, oid, from); Counted(x.state, tight)
  {
    hide Serves, StateOk, Counted, Ensure, RemovePlacement, NoneRepeats;
    if oid in s.entries && HasTier(s.entries[oid], from) && NextLower(from).Ok? {
      var x := Ensure(cfg, s, oid, NextLower(from).value);
      EnsureKeeps(cfg, r, a, m, s, oid, NextLower(from).value, tight);
      KeptEnsure(cfg, r, a, m, s, oid, NextLower(from).value);
      KeptState(r, a, m, s, x.state, x.ops, {});
      if x.result.Ok? {
        CountedRemovePlacement(cfg, r, a, DescribedAfter(m, a, x.ops), x.state, oid, from, tight);
      }
    }
  }

  lemma PersistKeeps(cfg: Config, r: Rules, a: Registry, m: Registry, s: State, oid: Digest, tight: bool)
    requires Serves(cfg, r) && StateOk(r, a, m, s) && Counted(s, tight) && (tight ==> NoneRepeats(r, a))
    ensures var x := Persist(cfg, s, oid); Counted(x.state, tight)
  {
    hide Serves, StateOk, HostCounted, Ensure, NoneRepeats, TotalLoad;
    var x := Ensure(cfg, s, oid, P.Persistent);
    EnsureKeeps(cfg, r, a, m, s, oid, P.Persistent, tight);
    KeptEnsure(cfg, r, a, m, s, oid, P.Persistent);
    if x.result.Ok? {
      TotalSame(x.state.entries, oid, x.state.entries[oid].(durable := true));
    }
  }

  /** An eviction of an entry that exists always succeeds. */
  lemma EvictKeeps(cfg: Config, r: Rules, a: Registry, m: Registry, s: State, oid: Digest, tight: bool)
    requires Serves(cfg, r) && StateOk(r, a, m, s) && Counted(s, tight)
    ensures var x := Evict(cfg, s, oid);
      Counted(x.state, tight) && (x.result.Ok? <==> oid in s.entries)
  {
    hide Serves, StateOk, Counted, RemoveTiers, DistinctTiers, Stripped;
    if oid in s.entries {
      var ps := s.entries[oid].placements;
      DistinctOf(r, a, m, s, oid);
      TiersAreHeld(ps);
      StripSucceeds(cfg, r, a, m, s, oid, Volatile(Tiers(ps)), tight);
      CountedRemoveTiers(cfg, r, a, m, s, oid, Volatile(Tiers(ps)), true, tight);
    }
  }

  /** A deletion of an entry that exists always succeeds. */
  lemma DeleteKeeps(cfg: Config, r: Rules, a: Registry, m: Registry, s: State, oid: Digest, tight: bool)
    requires Serves(cfg, r) && StateOk(r, a, m, s) && Counted(s, tight)
    ensures var x := Delete(cfg, s, oid);
      Counted(x.state, tight) && (x.result.Ok? <==> oid in s.entries)
  {
    hide Serves, StateOk, HostCounted, RemoveTiers, DistinctTiers, Stripped, TotalLoad, ApplyAll;
    if oid in s.entries {
      var ps := s.entries[oid].placements;
      DistinctOf(r, a, m, s, oid);
      TiersAreHeld(ps);
      StripSucceeds(cfg, r, a, m, s, oid, Tiers(ps), tight);
      CountedRemoveTiers(cfg, r, a, m, s, oid, Tiers(ps), true, tight);
      RemoveTiersShape(cfg, s, oid, Tiers(ps), true);
      AllStripped(ps);
      var y := RemoveTiers(cfg, s, oid, Tiers(ps), true).state;
      TotalDrop(y.entries, oid);
      assert LoadAt(y.entries, oid) == multiset{};
      assert TotalLoad(y.entries - {oid}) == TotalLoad(y.entries);
    }
  }

  /** While the account covers the arena, no deletion leaves a durable entry off disk. */
  lemma CoveredNeverStuck(cfg: Config, r: Rules, a: Registry, m: Registry, s: State, oid: Digest, tight: bool)
    requires Serves(cfg, r) && StateOk(r, a, m, s) && Counted(s, tight)
    ensures !LosesDurable(s, oid)
  {
    hide Serves, StateOk, Counted, RemoveTiers, Stuck;
    if oid in s.entries {
      DeleteKeeps(cfg, r, a, m, s, oid, tight);
      RemoveAllOutcome(cfg, r, a, m, s, oid);
    }
  }

  // ---- Registration ------------------------------------------------------------------------

  lemma RegisterKeeps(cfg: Config, r: Rules, a: Registry, m: Registry, s: State, address: Address, k: CompatKey,
                      payload: Bytes, now: u64, tight: bool)
    requires Serves(cfg, r) && StateOk(r, a, m, s) && Counted(s, tight)
    requires OpOk(cfg, r, DoRegister(address, k, payload), now)
    requires Fair(cfg, s, DoRegister(address, k, payload), now, tight)
    ensures var x := Register(cfg, s, address, k, payload, now); Counted(x.state, tight)
  {
    hide Serves, StateOk, HostCounted, WithRoom, Register, CheckPayload, TotalLoad, Charged, Added, RefCount, NoRepeat;
    hide Positive;
    var charge := ChargeFor(cfg, s, k, payload);
    var s1 := WithRoom(cfg, s, charge, now);
    RoomCounted(cfg, r, a, m, s, charge, now, tight);
    if Register(cfg, s, address, k, payload, now).result.Ok? {
      RegisterCounted(cfg, r, a, m, s, address, k, payload, now, tight);
    } else {
      RegistrationRefused(cfg, r, a, m, s, address, k, payload, now);
    }
  }

  lemma RegisterCounted(cfg: Config, r: Rules, a: Registry, m: Registry, s: State, address: Address, k: CompatKey,
                        payload: Bytes, now: u64, tight: bool)
    requires Serves(cfg, r) && StateOk(r, a, m, s) && Counted(s, tight)
    requires OpOk(cfg, r, DoRegister(address, k, payload), now)
    requires Fair(cfg, s, DoRegister(address, k, payload), now, tight)
    requires Register(cfg, s, address, k, payload, now).result.Ok?
    ensures Counted(Register(cfg, s, address, k, payload, now).state, tight)
  {
    hide Serves, StateOk, WithRoom, Register, CheckPayload, TotalLoad, Charged, Added, RefCount, Positive;
    var charge, bs := ChargeFor(cfg, s, k, payload), BlocksFor(cfg, k, payload);
    var s1 := WithRoom(cfg, s, charge, now);
    assert Counted(s, false);
    RegistrationDrift(cfg, r, a, m, s, address, k, payload, now);
    RoomCounted(cfg, r, a, m, s, charge, now, tight);
    CountedRefs(s1, tight);
    ChargeAgainstLoss(s.arena.blocks.Keys, s1.arena.blocks.Keys, bs);
    if tight {
      NoRepeatIsNoNewRepeat(s1.arena.blocks.Keys, bs);
    }
  }

  // ---- One operation, then whole runs ------------------------------------------------------

  /** Every operation keeps the account, exact or covering; deletions and evictions of existing entries succeed. */
  lemma CountedStep(cfg: Config, r: Rules, a: Registry, m: Registry, s: State, op: Op, now: u64, tight: bool)
    requires Serves(cfg, r) && StateOk(r, a, m, s) && OpOk(cfg, r, op, now) && Fair(cfg, s, op, now, tight)
    requires Counted(s, tight) && (tight ==> NoneRepeats(r, a))
    ensures var x := Step(cfg, s, op, now);
      && Counted(x.state, tight)
      && (op.DoDelete? || op.DoEvict? ==> (x.result.Ok? <==> op.oid in s.entries))
  {
    hide StateOk, Serves, HostCounted, Register, Restore, Promote, Demote, Persist, Evict, Delete, OpOk, Fair;
    hide NoneRepeats, TotalLoad;
    match op
    case DoRegister(address, k, payload) =>
      RegisterKeeps(cfg, r, a, m, s, address, k, payload, now, tight);
    case DoLookup(address, k) =>
      LookupKeeps(cfg, s, address, k, now, tight);
    case DoRestore(oid, t) =>
      RestoreKeeps(cfg, r, a, m, s, oid, t, now, tight);
    case DoPromote(oid, t) =>
      RestoreKeeps(cfg, r, a, m, s, oid, t, now, tight);
    case DoDemote(oid, t) =>
      DemoteKeeps(cfg, r, a, m, s, oid, t, tight);
    case DoPersist(oid) =>
      PersistKeeps(cfg, r, a, m, s, oid, tight);
    case DoEvict(oid) =>
      EvictKeeps(cfg, r, a, m, s, oid, tight);
    case DoDelete(oid) =>
      DeleteKeeps(cfg, r, a, m, s, oid, tight);
  }

  lemma LookupKeeps(cfg: Config, s: State, address: Address, k: CompatKey, now: u64, tight: bool)
    requires Counted(s, tight)
    ensures var x := Lookup(cfg, s, address, k, now); Counted(x.state, tight)
  {
    hide HostCounted, TotalLoad;
    var oid := cfg.name(address);
    if oid in s.entries {
      TotalSame(s.entries, oid, s.entries[oid].(reuseCount := SatAdd(s.entries[oid].reuseCount, 1), lastUseNs := now));
    }
  }

  lemma {:induction false} RecoveryLeavesHost(cfg: Config, s: State, listing: seq<Digest>, now: u64)
    ensures var s' := RecoverAll(cfg, s, listing, now);
      s'.arena == s.arena && s'.host == s.host && s'.storage == s.storage && s'.backends == s.backends
        && s'.accelUsed == s.accelUsed && s'.disk == s.disk
    decreases |listing|
  {
    hide CountBlocks, BlocksExist, ObjectIdFromHex;
    if listing != [] {
      var path := ManifestFile(listing[0]);
      var m := if path in s.disk then cfg.codec.read(s.disk[path]) else Err(Error.Persistence);
      RecoveryLeavesHost(cfg, if m.Ok? then RecoverOne(cfg, s, m.value, now) else s, listing[1..], now);
    }
  }

  /** A cache just opened has an exact account. */
  lemma OpenedCounted(cfg: Config, r: Rules, a: Registry, m: Registry, d: Disk, listing: seq<Digest>, hostCapacity: u64,
                      storageCapacity: u64,
                      backends: map<BackendId, Backend>, now: u64)
    requires StateOk(r, a, m, Open(cfg, d, listing, hostCapacity, storageCapacity, backends, now))
    ensures var s := Open(cfg, d, listing, hostCapacity, storageCapacity, backends, now); Counted(s, true)
  {
    hide EntriesOk, Linked, DiskSound, StoreOk, DeviceOk, RecoverAll, TotalLoad;
    var s := Open(cfg, d, listing, hostCapacity, storageCapacity, backends, now);
    RecoveryLeavesHost(cfg, Fresh(Clean(d), hostCapacity, storageCapacity, backends), listing, now);
    assert s.arena == EMPTY_ARENA;
  }

  /** Every operation that runs to its end meets the side conditions. */
  ghost predicate FairRun(cfg: Config, r: Rules, w: World, evs: seq<Event>, tight: bool)
    requires RunOk(cfg, r, w, evs)
    decreases |evs|
  {
    evs != [] ==>
      && (evs[0].Run? ==> Fair(cfg, w.s, evs[0].op, evs[0].now, tight))
      && FairRun(cfg, r, Next(cfg, r, w, evs[0]), evs[1..], tight)
  }

  ghost predicate HistoryRepeatFree(r: Rules, w: World) {
    forall p :: p in w.history ==> NoRepeat(r.blocks(p.1))
  }

  ghost predicate AccountOk(r: Rules, w: World, tight: bool) {
    && WorldOk(r, w) && Counted(w.s, tight) && DurableOnDisk(w.s.entries)
    && (tight ==> HistoryRepeatFree(r, w))
  }

  lemma HistoryNoneRepeats(r: Rules, w: World)
    requires WorldOk(r, w) && HistoryRepeatFree(r, w)
    ensures NoneRepeats(r, w.a)
  {
    hide StateOk, NoRepeat;
    forall oid | oid in w.a
      ensures NoRepeat(r.blocks(w.a[oid]))
    {
      assert (oid, w.a[oid]) in w.history;
    }
  }

  lemma HistoryStays(cfg: Config, r: Rules, w: World, ev: Event)
    requires Serves(cfg, r) && HistoryRepeatFree(r, w) && EventOk(cfg, r, w, ev) && (ev.Run? ==> RepeatFree(cfg, ev.op))
    ensures HistoryRepeatFree(r, Next(cfg, r, w, ev))
  {
    hide Serves, NoRepeat, Step, CheckPayload, Open, Lists, SameButTemps;
    if ev.Run? && ev.op.DoRegister? && Step(cfg, w.s, ev.op, ev.now).result.Ok? {
      RegisterOkChecked(cfg, w.s, ev.op, ev.now);
      CheckedObject(cfg, r, ev.op.address, ev.op.compat, ev.op.payload, ev.now);
    }
  }

  lemma RegisterOkChecked(cfg: Config, s: State, op: Op, now: u64)
    requires op.DoRegister? && Step(cfg, s, op, now).result.Ok?
    ensures CheckPayload(cfg, op.compat, op.payload).Ok?
  {
    hide Register;
    RegistrationPassed(cfg, s, op.address, op.compat, op.payload, now);
  }

  lemma AccountNext(cfg: Config, r: Rules, w: World, ev: Event, tight: bool)
    requires Serves(cfg, r) && AccountOk(r, w, tight) && EventOk(cfg, r, w, ev)
    requires (ev.Run? ==> Fair(cfg, w.s, ev.op, ev.now, tight))
    ensures AccountOk(r, Next(cfg, r, w, ev), tight)
  {
    hide Serves, StateOk, HostCounted, DurableOnDisk, Step, OpOk, Open, LosesDurable, KeepsIncoming, RepeatFree;
    hide HistoryRepeatFree, Lists, SameButTemps;
    NextKeeps(cfg, r, w, ev);
    if tight {
      HistoryNoneRepeats(r, w);
      HistoryStays(cfg, r, w, ev);
    }
    DurableNext(cfg, r, w, ev);
    if ev.Run? {
      CountedStep(cfg, r, w.a, w.m, w.s, ev.op, ev.now, tight);
      if ev.op.DoDelete? {
        CoveredNeverStuck(cfg, r, w.a, w.m, w.s, ev.op.oid, tight);
      }
    } else {
      var w' := Next(cfg, r, w, ev);
      OpenedCounted(cfg, r, w'.a, w'.m, ev.image, ev.listing, ev.hostCapacity, ev.storageCapacity, ev.backends,
        ev.reopenedAt);
      CountedLoosens(w'.s, tight);
    }
  }

  lemma CountedLoosens(s: State, tight: bool)
    requires Counted(s, true)
    ensures Counted(s, tight)
  {
  }

  lemma {:induction false} AccountRun(cfg: Config, r: Rules, w: World, evs: seq<Event>, tight: bool)
    requires Serves(cfg, r) && AccountOk(r, w, tight) && RunOk(cfg, r, w, evs) && FairRun(cfg, r, w, evs, tight)
    ensures AccountOk(r, After(cfg, r, w, evs), tight)
    decreases |evs|
  {
    hide Serves, AccountOk, EventOk, Next, Fair;
    if evs != [] {
      AccountNext(cfg, r, w, evs[0], tight);
      AccountRun(cfg, r, Next(cfg, r, w, evs[0]), evs[1..], tight);
    }
  }
}

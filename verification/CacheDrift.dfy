/** When the host account stays exact over a registration, and two short runs in which it does not. */
module CacheDrift {
  import opened Prelude
  import opened Storage
  import opened Accounting
  import opened BlockArena
  import opened Compat
  import opened CacheSpec
  import opened CacheLoads
  import opened DiskSafety
  import opened CacheInvariant
  import opened CacheKept
  import opened CacheOperations
  import opened CacheRuns
  import opened CacheAccounting
  import opened CacheExactness
  import E = CacheEviction
  import P = Planner

  /**
   * From an exact account, a registration whose blocks survive the room-making leaves the account exact if and only
   * if no block that had to be stored occurs twice; otherwise the account is too high.
   */
  lemma RegistrationExactIffNoNewRepeat(cfg: Config, r: Rules, a: Registry, m: Registry, s: State, address: Address,
                                        k: CompatKey, payload: Bytes, now: u64)
    requires Serves(cfg, r) && StateOk(r, a, m, s) && Counted(s, true)
    requires OpOk(cfg, r, DoRegister(address, k, payload), now)
    requires KeepsIncoming(cfg, s, DoRegister(address, k, payload), now)
    requires Register(cfg, s, address, k, payload, now).result.Ok?
    ensures var s' := Register(cfg, s, address, k, payload, now).state;
      var s1 := WithRoom(cfg, s, ChargeFor(cfg, s, k, payload), now);
      && Drift(s') >= 0
      && (Drift(s') == 0 <==> NoNewRepeat(s1.arena.blocks.Keys, BlocksFor(cfg, k, payload)))
  {
    hide Serves, StateOk, WithRoom, Register, CheckPayload, TotalLoad, Charged, Added, RefCount, Positive, NoNewRepeat;
    var charge := ChargeFor(cfg, s, k, payload);
    var s1 := WithRoom(cfg, s, charge, now);
    CountedLoosens(s, false);
    RegistrationDrift(cfg, r, a, m, s, address, k, payload, now);
    RoomCounted(cfg, r, a, m, s, charge, now, true);
    CountedRefs(s1, true);
    ChargeAgainstLoss(s.arena.blocks.Keys, s1.arena.blocks.Keys, BlocksFor(cfg, k, payload));
  }

  /**
   * From an exact account, a registration of a payload without repeats leaves the account exact if and only if making
   * room freed none of its blocks; otherwise the account is too low.
   */
  lemma RegistrationExactIffNothingLost(cfg: Config, r: Rules, a: Registry, m: Registry, s: State, address: Address,
                                        k: CompatKey, payload: Bytes, now: u64)
    requires Serves(cfg, r) && StateOk(r, a, m, s) && Counted(s, true)
    requires OpOk(cfg, r, DoRegister(address, k, payload), now)
    requires RepeatFree(cfg, DoRegister(address, k, payload)) && Register(cfg, s, address, k, payload, now).result.Ok?
    ensures var s' := Register(cfg, s, address, k, payload, now).state;
      && Drift(s') <= 0
      && (Drift(s') == 0 <==> KeepsIncoming(cfg, s, DoRegister(address, k, payload), now))
  {
    hide Serves, StateOk, WithRoom, Register, CheckPayload, TotalLoad, Charged, Added, RefCount, Positive, NoRepeat;
    var charge := ChargeFor(cfg, s, k, payload);
    var s1 := WithRoom(cfg, s, charge, now);
    CountedLoosens(s, false);
    RegistrationDrift(cfg, r, a, m, s, address, k, payload, now);
    RoomCounted(cfg, r, a, m, s, charge, now, true);
    CountedRefs(s1, true);
    ChargeExactIffNothingLost(s.arena.blocks.Keys, s1.arena.blocks.Keys, BlocksFor(cfg, k, payload));
  }

  /** A restore, promotion or demotion that gives an entry its copy in host memory. */
  predicate CopiesToHost(s: State, op: Op) {
    && (|| ((op.DoRestore? || op.DoPromote?) && op.tier == P.Host)
        || (op.DoDemote? && op.tier.Accelerator?))
    && op.oid in s.entries && !HasTier(s.entries[op.oid], P.Host)
  }

  lemma HostCopyDrift(cfg: Config, r: Rules, a: Registry, m: Registry, s: State, oid: Digest)
    requires Serves(cfg, r) && StateOk(r, a, m, s) && Counted(s, true) && oid in s.entries && oid in a
    ensures var x := AddPlacement(cfg, s, oid, P.Host, a[oid].payload);
      x.result.Ok? ==>
        && Drift(x.state) >= 0
        && (Drift(x.state) == 0 <==> NoNewRepeat(s.arena.blocks.Keys, r.blocks(a[oid])))
  {
    hide Serves, StateOk, Usable, TotalLoad, AcquireAll, AddHost, RefCount, Consistent, Within, NoCollision;
    hide NoNewRepeat;
    var bs := r.blocks(a[oid]);
    EntryFacts(cfg, r, a, m, s, oid);
    ArenaFacts(r, a, m, s);
    UsablePositive(cfg, r, oid, a[oid]);
    AddHostShape(cfg, r, s, oid, a[oid]);
    if AddHost(cfg, s, oid, a[oid].payload).result.Ok? {
      AcquireCounted(cfg, r, s.arena, s.host, TotalLoad(s.entries), oid, a[oid], Charged(s.arena.blocks.Keys, bs));
      ChargeExactIffNoRepeat(s.arena.blocks.Keys, bs);
    }
  }

  /** Giving up a copy on a device leaves the host account and the arena alone. */
  lemma DeviceRemovalKeepsDrift(cfg: Config, s: State, oid: Digest, t: Tier)
    requires t.Accelerator?
    ensures Drift(RemovePlacement(cfg, s, oid, t).state) == Drift(s)
  {
    hide ReleaseAll, DropBlocks, Without;
  }

  /** The copy that is stored is the registered payload, and no capacity is left to enforce after it. */
  lemma HostCopyStored(cfg: Config, r: Rules, a: Registry, m: Registry, s: State, oid: Digest, now: u64)
    requires Serves(cfg, r) && StateOk(r, a, m, s) && oid in s.entries && !HasTier(s.entries[oid], P.Host)
    ensures oid in a && (Materialize(cfg, s, oid).Ok? ==> Materialize(cfg, s, oid) == Ok(a[oid].payload))
    ensures var x := AddPlacement(cfg, s, oid, P.Host, a[oid].payload); EnforceCapacity(cfg, x.state, now) == x.state
  {
    hide Serves, StateOk, AddPlacement, Materialize, EnforceCapacity;
    EntryKeys(r, a, m, s);
    MaterializeYieldsPayload(cfg, r, a, m, s, oid);
    var x := AddPlacement(cfg, s, oid, P.Host, a[oid].payload);
    KeptAddPlacement(cfg, r, a, m, s, oid, P.Host);
    KeptState(r, a, m, s, x.state, x.ops, {});
    EnforceCapacityIsIdle(cfg, r, a, DescribedAfter(m, a, x.ops), x.state, now);
  }

  /**
   * From an exact account, an operation that gives an object its copy in host memory leaves the account exact if and
   * only if no block that had to be stored occurs twice in it; otherwise the account is too high.
   */
  lemma HostCopyExactIffNoNewRepeat(cfg: Config, r: Rules, a: Registry, m: Registry, s: State, op: Op, now: u64)
    requires Serves(cfg, r) && StateOk(r, a, m, s) && Counted(s, true) && CopiesToHost(s, op)
    requires Step(cfg, s, op, now).result.Ok?
    ensures var s' := Step(cfg, s, op, now).state;
      && Drift(s') >= 0 && op.oid in a
      && (Drift(s') == 0 <==> NoNewRepeat(s.arena.blocks.Keys, r.blocks(a[op.oid])))
  {
    hide Serves, StateOk, Counted, AddPlacement, RemovePlacement, Materialize, EnforceCapacity, NoNewRepeat, HasTier;
    hide Drift, Register, Lookup, Persist, Evict, Delete;
    HostCopyStored(cfg, r, a, m, s, op.oid, now);
    HostCopyDrift(cfg, r, a, m, s, op.oid);
    if op.DoDemote? {
      DeviceRemovalKeepsDrift(cfg, AddPlacement(cfg, s, op.oid, P.Host, a[op.oid].payload).state, op.oid, op.tier);
    }
  }

  function Alone(oid: Digest, obj: Object): Registry {
    map[][oid := obj]
  }

  // ---- Two runs ----------------------------------------------------------------------------

  /** A two-byte payload in blocks of one byte. */
  lemma TwoBlocks(cfg: Config, k: CompatKey, x: byte, y: byte)
    requires cfg.blockSize == 1 && CheckPayload(cfg, k, [x, y]).Ok?
    ensures BlocksFor(cfg, k, [x, y]) ==
      [BlockRef(cfg.content.hash([x]), 0, 1, cfg.content.crc([x])),
        BlockRef(cfg.content.hash([y]), 1, 1, cfg.content.crc([y]))]
  {
    var p: Bytes := [x, y];
    assert p[0..1] == [x] && p[1..2] == [y];
    assert ChunkFrom(cfg.content, p, 1, 2) == [];
    assert ChunkFrom(cfg.content, p, 1, 1) == [RefOf(cfg.content, p, 1, 2)];
    assert ChunkFrom(cfg.content, p, 1, 0) == [RefOf(cfg.content, p, 0, 1), RefOf(cfg.content, p, 1, 2)];
  }

  lemma TwoCharged(have: set<Digest>, b: BlockRef, c: BlockRef)
    ensures Charged(have, [b, c]) == (if b.hash in have then 0 else b.len) + (if c.hash in have then 0 else c.len)
    ensures Added(have, [b, c]) ==
      (if b.hash in have then 0 else b.len) + (if c.hash in have || c.hash == b.hash then 0 else c.len)
  {
    assert [b, c][1..] == [c] && [c][1..] == [];
    assert Charged(have, [c]) == if c.hash in have then 0 else c.len;
    assert Added(have + {b.hash}, [c]) == if c.hash in have || c.hash == b.hash then 0 else c.len;
  }

  /** The checks of a registration decide its success. */
  lemma RegistrationSucceeds(cfg: Config, r: Rules, a: Registry, m: Registry, s: State, address: Address, k: CompatKey,
                             payload: Bytes, now: u64)
    requires Serves(cfg, r) && StateOk(r, a, m, s) && OpOk(cfg, r, DoRegister(address, k, payload), now)
    requires CheckPayload(cfg, k, payload).Ok? && cfg.name(address) !in s.entries && Admits(cfg, |payload|)
    requires ChargeFor(cfg, s, k, payload) <= Free(WithRoom(cfg, s, ChargeFor(cfg, s, k, payload), now).host)
    ensures Register(cfg, s, address, k, payload, now).result.Ok?
  {
    hide Serves, StateOk, StoreBlocks, EvictToFree, EnforceCapacity, CheckPayload, NewEntry, Admits, Register, Charged;
    var charge := ChargeFor(cfg, s, k, payload);
    RoomFor(cfg, r, a, m, s, address, charge, now);
    RegisterStores(cfg, r, a, m, WithRoom(cfg, s, charge, now), address, k, payload, charge, now);
    RegisterUnfolds(cfg, s, address, k, payload, now);
  }

  lemma FreshCounted(s: State)
    requires s.entries == map[] && s.arena == EMPTY_ARENA && s.host.used == 0
    ensures Counted(s, true) && Drift(s) == 0
  {
    assert Loads(s.entries) == map[];
  }

  /** Registering over a fresh cache with room for the charge. */
  lemma RegisterFresh(cfg: Config, r: Rules, m: Registry, s: State, address: Address, k: CompatKey, payload: Bytes,
                      now: u64)
    requires Serves(cfg, r) && StateOk(r, map[], m, s) && s.entries == map[] && s.arena == EMPTY_ARENA
    requires s.host.used == 0
    requires CheckPayload(cfg, k, payload).Ok? && Admits(cfg, |payload|)
    requires OpOk(cfg, r, DoRegister(address, k, payload), now)
    requires Charged({}, BlocksFor(cfg, k, payload)) <= s.host.capacity
    ensures var x := Register(cfg, s, address, k, payload, now); var bs := BlocksFor(cfg, k, payload);
      && x.result.Ok? && Inside(payload, bs) && x.state.host.used == Charged({}, bs)
      && x.state.arena.bytes == Added({}, bs)
      && x.state == Inserted(cfg, s, address, k, payload, Charged({}, bs), now)
      && Counted(x.state, false)
  {
    hide Serves, StateOk, CheckPayload, Register, Charged, Added, Admits, TotalLoad, HostCounted, NewEntry, AcquireAll;
    var bs := BlocksFor(cfg, k, payload);
    assert s.arena.blocks.Keys == {};
    assert ChargeFor(cfg, s, k, payload) == Charged({}, bs);
    EntryKeys(r, map[], m, s);
    ReservationCommits(s.host, Charged({}, bs));
    assert WithRoom(cfg, s, Charged({}, bs), now) == s;
    FreshCounted(s);
    CountedLoosens(s, false);
    RegistrationSucceeds(cfg, r, map[], m, s, address, k, payload, now);
    RegistrationDrift(cfg, r, map[], m, s, address, k, payload, now);
    RegistrationStoresAfterRoom(cfg, r, map[], m, s, address, k, payload, now);
    RegisteredCovered(cfg, s, address, k, payload, Charged({}, bs), now);
    ChargeExactIffNoRepeat({}, bs);
  }

  lemma RegisteredCovered(cfg: Config, s: State, address: Address, k: CompatKey, payload: Bytes, charge: nat, now: u64)
    requires CheckPayload(cfg, k, payload).Ok? && Inside(payload, CheckPayload(cfg, k, payload).value.0)
    requires s.host.used + charge <= U64_MAX
    requires var s' := Inserted(cfg, s, address, k, payload, charge, now);
      forall h :: RefCount(s'.arena, h) == TotalLoad(s'.entries)[HostRef(h)]
    ensures var s' := Inserted(cfg, s, address, k, payload, charge, now);
      && s'.host.used == s.host.used + charge && (Drift(s') >= 0 ==> Counted(s', false))
      && (Drift(s') == 0 ==> Counted(s', true))
  {
    hide CheckPayload, TotalLoad, AcquireAll, NewEntry, RefCount;
  }

  /**
   * Over-counting: a payload that repeats a block is charged for every copy but stored once, and after its deletion
   * the empty cache still has a byte on its account.
   */
  lemma RepeatedBlockIsOvercounted(cfg: Config, r: Rules, m: Registry, s: State, address: Address, k: CompatKey,
                                   x: byte, now: u64)
    requires Serves(cfg, r) && cfg.blockSize == 1
    requires StateOk(r, map[], m, s) && s.entries == map[] && s.arena == EMPTY_ARENA && s.host.used == 0
    requires s.host.capacity >= 2
    requires CheckPayload(cfg, k, [x, x]).Ok? && Admits(cfg, 2) && OpOk(cfg, r, DoRegister(address, k, [x, x]), now)
    ensures var one := Register(cfg, s, address, k, [x, x], now); var two := Delete(cfg, one.state, cfg.name(address));
      && one.result.Ok? && one.state.host.used == 2 && one.state.arena.bytes == 1
      && two.result.Ok? && two.state.entries == map[] && two.state.host.used == 1 && two.state.arena.bytes == 0
  {
    hide Serves, StateOk, CheckPayload, Register, Admits, Delete, Charged, Added, HostCounted, TotalLoad, NewEntry;
    hide AcquireAll;
    TwoBlocks(cfg, k, x, x);
    var bs := BlocksFor(cfg, k, [x, x]);
    TwoCharged({}, bs[0], bs[1]);
    RegisterFresh(cfg, r, m, s, address, k, [x, x], now);
    var one := Register(cfg, s, address, k, [x, x], now).state;
    var oid := cfg.name(address);
    KeptRegister(cfg, r, map[], m, s, address, k, [x, x], now);
    var a := Alone(oid, Object(address, k, [x, x], now));
    RegisteredOk(cfg, r, m, s, address, k, [x, x], now);
    DeletedDrift(cfg, r, a, m, one, oid);
    var two := Delete(cfg, one, oid).state;
    assert two.entries == map[];
    EmptyArena(cfg, r, two);
  }

  lemma RegisteredOk(cfg: Config, r: Rules, m: Registry, s: State, address: Address, k: CompatKey, payload: Bytes,
                     now: u64)
    requires Serves(cfg, r) && StateOk(r, map[], m, s) && OpOk(cfg, r, DoRegister(address, k, payload), now)
    requires Register(cfg, s, address, k, payload, now).result.Ok?
    ensures StateOk(r, Alone(cfg.name(address), Object(address, k, payload, now)), m,
      Register(cfg, s, address, k, payload, now).state)
  {
    hide Serves, StateOk, CheckPayload, Register;
    KeptRegister(cfg, r, map[], m, s, address, k, payload, now);
    RegisterTouchesNoFile(cfg, s, address, k, payload, now);
  }

  lemma DeletedDrift(cfg: Config, r: Rules, a: Registry, m: Registry, s: State, oid: Digest)
    requires Serves(cfg, r) && StateOk(r, a, m, s) && Counted(s, false) && oid in s.entries
    ensures var x := Delete(cfg, s, oid); 
      && x.result.Ok? && x.state.entries.Keys == s.entries.Keys - {oid} && Drift(x.state) == Drift(s)
      && Counted(x.state, false)
      && exists a', m' :: StateOk(r, a', m', x.state)
  {
    hide Serves, StateOk, HostCounted, RemoveTiers, TotalLoad, ApplyAll, DistinctTiers, Stripped;
    DeleteKeeps(cfg, r, a, m, s, oid, false);
    KeptDelete(cfg, r, a, m, s, oid);
    CountedRemoveTiers(cfg, r, a, m, s, oid, Tiers(s.entries[oid].placements), true, false);
    RemoveTiersShape(cfg, s, oid, Tiers(s.entries[oid].placements), true);
  }

  lemma EmptyArena(cfg: Config, r: Rules, s: State)
    requires Counted(s, false) && s.entries == map[] && exists a, m :: StateOk(r, a, m, s)
    ensures s.arena.bytes == 0
  {
    hide EntriesOk, Linked, DiskSound, StoreOk, DeviceOk;
    var a, m :| StateOk(r, a, m, s);
    assert Loads(s.entries) == map[];
    assert forall h :: RefCount(s.arena, h) == 0;
    NothingReferenced(r.content, s.arena);
  }

  /**
   * Under-counting: with room for two bytes, a second object that shares a block with the first is charged for its
   * new block only; making room then evicts the first object and the shared block with it, and storing the second
   * object adds both blocks. The account covers one of the two bytes stored.
   */
  lemma LostBlockIsUndercounted(cfg: Config, r: Rules, m: Registry, s: State, first: Address, second: Address,
                                k: CompatKey, x: byte, y: byte, z: byte, now: u64)
    requires Serves(cfg, r) && cfg.blockSize == 1 && x != y && x != z && y != z
    requires StateOk(r, map[], m, s) && s.entries == map[] && s.arena == EMPTY_ARENA && s.host.used == 0
    requires s.host.capacity == 2
    requires CheckPayload(cfg, k, [x, y]).Ok? && CheckPayload(cfg, k, [x, z]).Ok? && Admits(cfg, 2)
    requires cfg.name(first) != cfg.name(second)
    requires OpOk(cfg, r, DoRegister(first, k, [x, y]), now) && OpOk(cfg, r, DoRegister(second, k, [x, z]), now)
    ensures var one := Register(cfg, s, first, k, [x, y], now);
      var two := Register(cfg, one.state, second, k, [x, z], now);
      && one.result.Ok? && Drift(one.state) == 0
      && two.result.Ok? && Drift(two.state) == -1 && two.state.arena.bytes == 2 && two.state.host.used == 1
  {
    hide Serves, StateOk, CheckPayload, Register, Admits, Charged, Added, TotalLoad, NewEntry, AcquireAll, WithRoom;
    hide HostCounted;
    var s1 := Register(cfg, s, first, k, [x, y], now).state;
    var oid := cfg.name(first);
    var a := Alone(oid, Object(first, k, [x, y], now));
    FirstRegistered(cfg, r, m, s, first, k, x, y, now);
    DistinctBlocks(cfg, r, first, second, k, x, y, z, now);
    TwoBlocks(cfg, k, x, z);
    var bs := BlocksFor(cfg, k, [x, z]);
    TwoCharged(s1.arena.blocks.Keys, bs[0], bs[1]);
    assert ChargeFor(cfg, s1, k, [x, z]) == 1;
    var s2 := WithRoom(cfg, s1, 1, now);
    FirstEvicted(cfg, r, a, m, s1, oid, now);
    TwoCharged(s2.arena.blocks.Keys, bs[0], bs[1]);
    RegistrationSucceeds(cfg, r, a, m, s1, second, k, [x, z], now);
    CountedLoosens(s1, false);
    RegistrationDrift(cfg, r, a, m, s1, second, k, [x, z], now);
    RegistrationStoresAfterRoom(cfg, r, a, m, s1, second, k, [x, z], now);
    RegisteredCovered(cfg, s2, second, k, [x, z], 1, now);
  }

  lemma DistinctBlocks(cfg: Config, r: Rules, first: Address, second: Address, k: CompatKey, x: byte, y: byte, z: byte,
                       now: u64)
    requires Serves(cfg, r) && cfg.blockSize == 1 && x != y && x != z && y != z
    requires CheckPayload(cfg, k, [x, y]).Ok? && CheckPayload(cfg, k, [x, z]).Ok?
    requires OpOk(cfg, r, DoRegister(first, k, [x, y]), now) && OpOk(cfg, r, DoRegister(second, k, [x, z]), now)
    ensures var h := cfg.content.hash; h([x]) != h([y]) && h([x]) != h([z]) && h([y]) != h([z])
  {
    hide CheckPayload, Usable;
    PairKnown(cfg, r, first, k, x, y, now);
    PairKnown(cfg, r, second, k, x, z, now);
    var p, q, t: Bytes := [x], [y], [z];
    assert p[0] != q[0] && p[0] != t[0] && q[0] != t[0];
  }

  lemma PairKnown(cfg: Config, r: Rules, address: Address, k: CompatKey, x: byte, y: byte, now: u64)
    requires Serves(cfg, r) && cfg.blockSize == 1 && CheckPayload(cfg, k, [x, y]).Ok?
    requires OpOk(cfg, r, DoRegister(address, k, [x, y]), now)
    ensures [x] in r.known && [y] in r.known
  {
    hide CheckPayload, Serves;
    CheckedObject(cfg, r, address, k, [x, y], now);
    TwoBlocks(cfg, k, x, y);
    var p: Bytes := [x, y];
    var bs := BlocksFor(cfg, k, p);
    assert bs[0] in bs && bs[1] in bs;
    assert Stretch(p, bs[0]) == [x] && Stretch(p, bs[1]) == [y];
  }

  lemma FirstRegistered(cfg: Config, r: Rules, m: Registry, s: State, first: Address, k: CompatKey, x: byte, y: byte,
                        now: u64)
    requires Serves(cfg, r) && cfg.blockSize == 1 && x != y
    requires StateOk(r, map[], m, s) && s.entries == map[] && s.arena == EMPTY_ARENA && s.host.used == 0
    requires s.host.capacity == 2
    requires CheckPayload(cfg, k, [x, y]).Ok? && Admits(cfg, 2) && OpOk(cfg, r, DoRegister(first, k, [x, y]), now)
    ensures var one := Register(cfg, s, first, k, [x, y], now); var oid := cfg.name(first);
      && one.result.Ok? && Counted(one.state, true) && Drift(one.state) == 0 && one.state.host == Budget(2, 2, 0)
      && StateOk(r, Alone(oid, Object(first, k, [x, y], now)), m, one.state)
      && one.state.entries.Keys == {oid} && Evicts(one.state.entries[oid])
      && one.state.arena.blocks.Keys == {cfg.content.hash([x]), cfg.content.hash([y])}
  {
    hide Serves, StateOk, CheckPayload, Register, Admits, Charged, Added, TotalLoad, HostCounted, AcquireAll, Inserted;
    hide Evicts, Inside, OpOk;
    TwoBlocks(cfg, k, x, y);
    var bs := BlocksFor(cfg, k, [x, y]);
    TwoCharged({}, bs[0], bs[1]);
    EntryKeys(r, map[], m, s);
    assert cfg.content.hash([x]) != cfg.content.hash([y]) by { PairDistinct(cfg, r, first, k, x, y, now); }
    RegisterFresh(cfg, r, m, s, first, k, [x, y], now);
    RegisteredOk(cfg, r, m, s, first, k, [x, y], now);
    var one := Register(cfg, s, first, k, [x, y], now).state;
    CountedTightens(one);
    InsertedAlone(cfg, s, first, k, [x, y], 2, now);
    PairStored(cfg, k, x, y);
  }

  lemma PairStored(cfg: Config, k: CompatKey, x: byte, y: byte)
    requires cfg.blockSize == 1 && CheckPayload(cfg, k, [x, y]).Ok? && Inside([x, y], BlocksFor(cfg, k, [x, y]))
    ensures AcquireAll(cfg.content, EMPTY_ARENA, [x, y], BlocksFor(cfg, k, [x, y])).blocks.Keys ==
      {cfg.content.hash([x]), cfg.content.hash([y])}
  {
    hide CheckPayload, AcquireAll;
    TwoBlocks(cfg, k, x, y);
    var p: Bytes := [x, y];
    var bs := BlocksFor(cfg, k, p);
    TwoStored(cfg.content, EMPTY_ARENA, p, bs);
    assert Stretch(p, bs[0]) == [x] && Stretch(p, bs[1]) == [y];
  }

  lemma PairDistinct(cfg: Config, r: Rules, address: Address, k: CompatKey, x: byte, y: byte, now: u64)
    requires Serves(cfg, r) && cfg.blockSize == 1 && x != y && CheckPayload(cfg, k, [x, y]).Ok?
    requires OpOk(cfg, r, DoRegister(address, k, [x, y]), now)
    ensures cfg.content.hash([x]) != cfg.content.hash([y])
  {
    hide CheckPayload, Usable;
    PairKnown(cfg, r, address, k, x, y, now);
    var p, q: Bytes := [x], [y];
    assert p[0] != q[0];
  }

  lemma InsertedAlone(cfg: Config, s: State, address: Address, k: CompatKey, payload: Bytes, charge: nat, now: u64)
    requires CheckPayload(cfg, k, payload).Ok? && Inside(payload, CheckPayload(cfg, k, payload).value.0)
    requires s.host.used + charge <= U64_MAX
    requires s.entries == map[]
    ensures var s' := Inserted(cfg, s, address, k, payload, charge, now); var oid := cfg.name(address);
      && s'.entries.Keys == {oid} && Evicts(s'.entries[oid]) && s'.host == s.host.(used := s.host.used + charge)
      && s'.arena == AcquireAll(cfg.content, s.arena, payload, BlocksFor(cfg, k, payload))
  {
    hide CheckPayload, AcquireAll;
    assert IndexOf([InHost(BlocksFor(cfg, k, payload))], P.Host) == 0;
  }

  lemma CountedTightens(s: State)
    requires Counted(s, false) && Drift(s) == 0
    ensures Counted(s, true)
  {
  }

  lemma TwoStored(c: Content, arena: Arena, payload: Bytes, bs: seq<BlockRef>)
    requires arena == EMPTY_ARENA && |bs| == 2 && Inside(payload, bs)
    ensures AcquireAll(c, arena, payload, bs).blocks.Keys ==
      {c.hash(Stretch(payload, bs[0])), c.hash(Stretch(payload, bs[1]))}
  {
    var rest := bs[1..];
    assert rest[1..] == [];
    var a1 := Acquire(c, arena, Stretch(payload, bs[0]));
    assert AcquireAll(c, arena, payload, bs) == AcquireAll(c, a1, payload, rest) ==
      Acquire(c, a1, Stretch(payload, bs[1]));
  }

  lemma {:induction false} TiersKeepCapacity(cfg: Config, s: State, oid: Digest, tiers: seq<Tier>, strict: bool)
    ensures RemoveTiers(cfg, s, oid, tiers, strict).state.host.capacity == s.host.capacity
    decreases |tiers|
  {
    hide ReleaseAll, DropBlocks, IndexOf;
    if tiers != [] {
      var y := RemovePlacement(cfg, s, oid, tiers[0]);
      if oid in s.entries && HasTier(s.entries[oid], tiers[0]) {
        var p := s.entries[oid].placements[IndexOf(s.entries[oid].placements, tiers[0])];
        if p.InHost? {
          ReleaseKeepsBudget(s.arena, s.host, p.refs);
        }
      }
      TiersKeepCapacity(cfg, y.state, oid, tiers[1..], strict);
    }
  }

  lemma {:induction false} EvictionKeepsCapacity(cfg: Config, s: State, order: seq<Digest>, goal: Goal)
    ensures EvictInOrder(cfg, s, order, goal).host.capacity == s.host.capacity
    decreases |order|
  {
    hide RemoveTiers, Reached;
    if order != [] && !CacheSpec.Reached(goal, s) {
      if order[0] in s.entries {
        TiersKeepCapacity(cfg, s, order[0], Volatile(Tiers(s.entries[order[0]].placements)), false);
      }
      EvictionKeepsCapacity(cfg, EvictOne(cfg, s, order[0]), order[1..], goal);
    }
  }

  lemma {:induction false} NoHostLoad(blocks: seq<BlockRef>, ps: seq<Placement>, h: Digest)
    requires forall i :: 0 <= i < |ps| ==> !ps[i].InHost?
    ensures LoadAll(blocks, ps)[HostRef(h)] == 0
  {
    if ps != [] {
      TaggedCounts(blocks, true, HostRef(h));
      NoHostLoad(blocks, ps[1..], h);
    }
  }

  /** A cache whose only entry has no copy in host memory has an empty arena. */
  lemma HostlessArena(r: Rules, a: Registry, m: Registry, s: State, oid: Digest)
    requires StateOk(r, a, m, s) && Counted(s, true) && s.entries.Keys == {oid} && !HasTier(s.entries[oid], P.Host)
    ensures s.arena.blocks == map[] && s.arena.bytes == 0 && s.host.used == 0
  {
    hide StateOk, TotalLoad;
    ArenaFacts(r, a, m, s);
    var e := s.entries[oid];
    TotalDrop(s.entries, oid);
    assert s.entries - {oid} == map[];
    assert Loads(map[]) == map[] && TotalLoad(map[]) == multiset{} by { EmptyTotal(); }
    forall h
      ensures RefCount(s.arena, h) == 0
    {
      NoHostLoad(e.blocks, e.placements, h);
    }
    NothingReferenced(r.content, s.arena);
  }

  lemma EmptyTotal()
    ensures TotalLoad(map[]) == multiset{}
  {
    var none: map<Digest, Entry> := map[];
    assert Loads(none) == map[];
  }

  /** With the account full, making room for one byte evicts the only entry and empties the arena. */
  lemma FirstEvicted(cfg: Config, r: Rules, a: Registry, m: Registry, s: State, oid: Digest, now: u64)
    requires Serves(cfg, r) && StateOk(r, a, m, s) && Counted(s, true) && s.host == Budget(2, 2, 0)
    requires s.entries.Keys == {oid} && Evicts(s.entries[oid])
    ensures var s' := WithRoom(cfg, s, 1, now); s'.arena.blocks == map[] && s'.host == Budget(2, 0, 0) && Drift(s') == 0
  {
    hide Serves, StateOk, EvictInOrder, EvictionList, DistinctTiers, HasTier, HostCounted, TotalLoad;
    DistinctOf(r, a, m, s, oid);
    var s' := WithRoom(cfg, s, 1, now);
    RoomCounted(cfg, r, a, m, s, 1, now, true);
    EvictionKeepsCapacity(cfg, s, EvictionList(cfg, now, s), FreeAtLeast(1));
    EntryKeys(r, a, m, s);
    EntryKeys(r, a, m, s');
    CountedRefs(s', true);
    OnlyEntryEvicted(cfg, s, oid, 1, now);
    HostlessArena(r, a, m, s', oid);
  }

  lemma OnlyEntryEvicted(cfg: Config, s: State, oid: Digest, needed: nat, now: u64)
    requires s.entries.Keys == {oid} && Evicts(s.entries[oid]) && Free(s.host) < needed
    requires DistinctTiers(s.entries[oid].placements)
    ensures var s' := EvictToFree(cfg, s, needed, now); oid in s'.entries && !HasTier(s'.entries[oid], P.Host)
  {
    hide EvictInOrder, EvictionList, DistinctTiers, HasTier;
    var s' := EvictToFree(cfg, s, needed, now);
    var k := E.MakingRoom(cfg, s, needed, now);
    var order := EvictionList(cfg, now, s);
    if k > 0 {
      assert order[0] in order && order[..k][0] == order[0];
      E.EvictionListMembers(cfg, now, s, order[0]);
      assert order[0] in s.entries.Keys;
      assert oid in order[..k];
      forall o | o in order[..k]
        ensures o in s.entries
      {
        E.EvictionListMembers(cfg, now, s, o);
      }
      E.EvictEachEffect(cfg, s, order[..k], oid);
    }
  }
}

/** Building blocks of concrete runs: explicit effects of operations on objects of one or two one-byte blocks. */
module CacheWitnesses {
  import opened Prelude
  import opened Storage
  import opened Accounting
  import opened BlockArena
  import opened Compat
  import opened CacheSpec
  import opened DiskSafety
  import opened CacheInvariant
  import opened CacheOperations
  import opened CacheRuns
  import opened CacheCrashes
  import opened CacheAccounting
  import opened CacheExactness
  import opened CacheDrift
  import F = CacheEffects
  import P = Planner

  // ---- Runs --------------------------------------------------------------------------------

  lemma {:induction false} RunSnoc(cfg: Config, r: Rules, w: World, evs: seq<Event>, ev: Event)
    requires RunOk(cfg, r, w, evs) && EventOk(cfg, r, After(cfg, r, w, evs), ev)
    ensures RunOk(cfg, r, w, evs + [ev]) && After(cfg, r, w, evs + [ev]) == Next(cfg, r, After(cfg, r, w, evs), ev)
    decreases |evs|
  {
    hide EventOk, Next;
    if evs == [] {
      assert [ev][1..] == [] && evs + [ev] == [ev];
      assert RunOk(cfg, r, Next(cfg, r, w, ev), []);
    } else {
      assert (evs + [ev])[1..] == evs[1..] + [ev];
      RunSnoc(cfg, r, Next(cfg, r, w, evs[0]), evs[1..], ev);
    }
  }

  /** Running one operation to its end. */
  lemma Runs(cfg: Config, r: Rules, w: World, op: Op, now: u64)
    requires Serves(cfg, r) && WorldOk(r, w) && OpOk(cfg, r, op, now)
    ensures EventOk(cfg, r, w, Run(op, now)) && WorldOk(r, Next(cfg, r, w, Run(op, now)))
    ensures var x := Step(cfg, w.s, op, now); var w' := Next(cfg, r, w, Run(op, now));
      && w'.s == x.state && w'.a == AbstractStep(cfg, w.a, op, now, x.result.Ok?)
      && w'.m == DescribedAfter(w.m, w.a, x.ops)
      && w'.history == w.history + Registered(cfg, op, now, x.result.Ok?)
  {
    hide Serves, WorldOk, OpOk, Step;
    NextKeeps(cfg, r, w, Run(op, now));
  }

  // ---- Blocks ------------------------------------------------------------------------------

  function ByteRef(c: Content, x: byte, offset: u64): BlockRef {
    BlockRef(c.hash([x]), offset, 1, c.crc([x]))
  }

  function One(cfg: Config, x: byte): seq<BlockRef> {
    [ByteRef(cfg.content, x, 0)]
  }

  function Two(cfg: Config, x: byte, y: byte): seq<BlockRef> {
    [ByteRef(cfg.content, x, 0), ByteRef(cfg.content, y, 1)]
  }

  /** An entry with these placements and this mark. */
  predicate Has(s: State, oid: Digest, ps: seq<Placement>, durable: bool) {
    oid in s.entries && s.entries[oid].placements == ps && s.entries[oid].durable == durable
      && !s.entries[oid].quarantined
  }

  lemma ByteKnown(cfg: Config, r: Rules, address: Address, k: CompatKey, x: byte, now: u64)
    requires Serves(cfg, r) && cfg.blockSize == 1 && CheckPayload(cfg, k, [x]).Ok?
    requires OpOk(cfg, r, DoRegister(address, k, [x]), now)
    ensures [x] in r.known
  {
    hide CheckPayload, Serves;
    CheckedObject(cfg, r, address, k, [x], now);
    OneBlock(cfg, k, x);
    var p: Bytes := [x];
    var bs := BlocksFor(cfg, k, p);
    assert bs[0] in bs && Stretch(p, bs[0]) == [x];
  }

  /** A one-byte payload in blocks of one byte. */
  lemma OneBlock(cfg: Config, k: CompatKey, x: byte)
    requires cfg.blockSize == 1 && CheckPayload(cfg, k, [x]).Ok?
    ensures BlocksFor(cfg, k, [x]) == [ByteRef(cfg.content, x, 0)]
  {
    var p: Bytes := [x];
    assert p[0..1] == [x];
    assert ChunkFrom(cfg.content, p, 1, 1) == [];
    assert ChunkFrom(cfg.content, p, 1, 0) == [RefOf(cfg.content, p, 0, 1)];
  }

  lemma OneCharged(have: set<Digest>, b: BlockRef)
    ensures Charged(have, [b]) == (if b.hash in have then 0 else b.len) && Added(have, [b]) == Charged(have, [b])
  {
    assert [b][1..] == [];
  }

  /** An arena with one more block. */
  function With(c: Content, a: Arena, x: byte): Arena {
    Arena(a.blocks[c.hash([x]) := [x]], a.refs[c.hash([x]) := 1], a.bytes + 1)
  }

  lemma AcquireByte(c: Content, a: Arena, x: byte)
    requires c.hash([x]) !in a.blocks
    ensures Acquire(c, a, [x]) == With(c, a, x)
  {
  }

  lemma AcquireOne(c: Content, a: Arena, x: byte)
    requires c.hash([x]) !in a.blocks
    ensures Inside([x], [ByteRef(c, x, 0)]) && AcquireAll(c, a, [x], [ByteRef(c, x, 0)]) == With(c, a, x)
  {
    var p: Bytes, bs := [x], [ByteRef(c, x, 0)];
    assert Stretch(p, bs[0]) == [x] && bs[1..] == [];
    AcquireByte(c, a, x);
  }

  lemma AcquireTwo(c: Content, a: Arena, x: byte, y: byte)
    requires c.hash([x]) !in a.blocks && c.hash([y]) !in a.blocks && c.hash([x]) != c.hash([y])
    ensures var bs := [ByteRef(c, x, 0), ByteRef(c, y, 1)];
      Inside([x, y], bs) && AcquireAll(c, a, [x, y], bs) == With(c, With(c, a, x), y)
  {
    hide Acquire;
    var p: Bytes, bs := [x, y], [ByteRef(c, x, 0), ByteRef(c, y, 1)];
    assert Stretch(p, bs[0]) == [x] && Stretch(p, bs[1]) == [y] && bs[1..] == [bs[1]] && bs[1..][1..] == [];
    AcquireByte(c, a, x);
    AcquireByte(c, With(c, a, x), y);
    assert AcquireAll(c, With(c, a, x), p, bs[1..]) == Acquire(c, With(c, a, x), [y]);
  }

  lemma ReleaseByte(c: Content, a: Arena, x: byte)
    requires c.hash([x]) !in a.blocks && a.blocks.Keys == a.refs.Keys
    ensures Release(With(c, a, x), c.hash([x])) == (a, true)
  {
    var h := c.hash([x]);
    assert a.blocks[h := [x]] - {h} == a.blocks && a.refs[h := 1] - {h} == a.refs;
  }

  lemma ReleaseOne(c: Content, a: Arena, host: Budget, x: byte, offset: u64)
    requires c.hash([x]) !in a.blocks && a.blocks.Keys == a.refs.Keys
    ensures ReleaseAll(With(c, a, x), host, [ByteRef(c, x, offset)]) == (a, SubUsed(host, 1).0, SubUsed(host, 1).1)
  {
    hide Release, With;
    ReleaseByte(c, a, x);
    assert [ByteRef(c, x, offset)][1..] == [];
  }

  lemma WithCommutes(c: Content, a: Arena, x: byte, y: byte)
    requires c.hash([x]) != c.hash([y])
    ensures With(c, With(c, a, x), y) == With(c, With(c, a, y), x)
  {
  }

  lemma ReleaseTwo(c: Content, a: Arena, host: Budget, x: byte, y: byte)
    requires c.hash([x]) !in a.blocks && c.hash([y]) !in a.blocks && c.hash([x]) != c.hash([y])
    requires a.blocks.Keys == a.refs.Keys
    requires host.used >= 2
    ensures ReleaseAll(With(c, With(c, a, x), y), host, [ByteRef(c, x, 0), ByteRef(c, y, 1)]) ==
      (a, host.(used := host.used - 2), true)
  {
    hide Release;
    var bs := [ByteRef(c, x, 0), ByteRef(c, y, 1)];
    WithCommutes(c, a, x, y);
    ReleaseByte(c, With(c, a, y), x);
    ReleaseOne(c, a, host.(used := host.used - 1), y, 1);
    assert bs[1..] == [bs[1]];
  }

  // ---- Operations on the placements of one entry -------------------------------------------

  /** Removing the only host placement, wherever it is. */
  lemma HostTaken(cfg: Config, s: State, oid: Digest, i: nat)
    requires oid in s.entries && DistinctTiers(s.entries[oid].placements)
    requires i < |s.entries[oid].placements| && s.entries[oid].placements[i].InHost?
    ensures var ps := s.entries[oid].placements; var freed := ReleaseAll(s.arena, s.host, ps[i].refs);
      var x := RemovePlacement(cfg, s, oid, P.Host);
      && x.state == s.(entries := WithPlacements(s.entries, oid, Without(ps, i)), arena := freed.0, host := freed.1)
      && x.ops == [] && x.result == if freed.2 then Ok(()) else Err(Error.Accounting)
  {
    hide ReleaseAll, DistinctTiers, Without;
    var ps := s.entries[oid].placements;
    OnlyPlacementOfTier(ps, i);
    assert TierOf(ps[i]) == P.Host && IndexOf(ps, P.Host) == i && HasTier(s.entries[oid], P.Host);
  }

  lemma OneTier(cfg: Config, s: State, oid: Digest, t: Tier, strict: bool)
    ensures var x := RemoveTiers(cfg, s, oid, [t], strict); var y := RemovePlacement(cfg, s, oid, t);
      x.state == y.state && x.ops == y.ops && (strict ==> (x.result.Ok? <==> y.result.Ok?))
  {
    hide RemovePlacement;
    assert [t][1..] == [];
    var y := RemovePlacement(cfg, s, oid, t);
    var z := RemoveTiers(cfg, y.state, oid, [t][1..], strict);
    assert z.state == y.state && z.ops == [] && z.result.Ok?;
    assert y.ops + z.ops == y.ops;
  }

  lemma TiersOfOne(p: Placement)
    ensures Tiers([p]) == [TierOf(p)] && Volatile([TierOf(p)]) == if p == OnDisk then [] else [TierOf(p)]
  {
    assert [p][1..] == [] && [TierOf(p)][1..] == [];
  }

  lemma TiersOfTwo(p: Placement, q: Placement)
    ensures Tiers([p, q]) == [TierOf(p), TierOf(q)]
    ensures p != OnDisk && q == OnDisk ==> Volatile(Tiers([p, q])) == [TierOf(p)]
  {
    assert [p, q][1..] == [q];
    TiersOfOne(q);
    assert [TierOf(p), TierOf(q)][1..] == [TierOf(q)];
  }

  /** The entry's only placement is in host memory, and the account can give it back. */
  lemma HostOnlyDeleted(cfg: Config, s: State, oid: Digest, refs: seq<BlockRef>)
    requires oid in s.entries && s.entries[oid].placements == [InHost(refs)] && ReleaseAll(s.arena, s.host, refs).2
    ensures var x := Delete(cfg, s, oid); var (arena, host, _) := ReleaseAll(s.arena, s.host, refs);
      x.result.Ok? && x.state.entries == s.entries - {oid} && x.state.arena == arena && x.state.host == host
  {
    hide ReleaseAll, RemoveTiers, RemovePlacement, ApplyAll;
    var ps := s.entries[oid].placements;
    TiersOfOne(ps[0]);
    HostTaken(cfg, s, oid, 0);
    OneTier(cfg, s, oid, P.Host, true);
    assert Without(ps, 0) == [];
  }

  lemma HostOnlyEvicted(cfg: Config, s: State, oid: Digest, refs: seq<BlockRef>)
    requires oid in s.entries && s.entries[oid].placements == [InHost(refs)]
    ensures var (arena, host, _) := ReleaseAll(s.arena, s.host, refs);
      EvictOne(cfg, s, oid) == s.(entries := WithPlacements(s.entries, oid, []), arena := arena, host := host)
  {
    hide ReleaseAll, RemoveTiers, RemovePlacement;
    var ps := s.entries[oid].placements;
    TiersOfOne(ps[0]);
    HostTaken(cfg, s, oid, 0);
    OneTier(cfg, s, oid, P.Host, false);
    assert Without(ps, 0) == [];
  }

  /** An entry in host memory and on disk, in that order, keeps only its storage placement. */
  lemma HostCopyEvicted(cfg: Config, s: State, oid: Digest, refs: seq<BlockRef>)
    requires oid in s.entries && s.entries[oid].placements == [InHost(refs), OnDisk]
    requires ReleaseAll(s.arena, s.host, refs).2
    ensures var (arena, host, _) := ReleaseAll(s.arena, s.host, refs); var x := Evict(cfg, s, oid);
      && x.result.Ok? && x.ops == []
      && x.state == s.(entries := WithPlacements(s.entries, oid, [OnDisk]), arena := arena, host := host)
  {
    hide ReleaseAll, RemoveTiers, RemovePlacement;
    var ps := s.entries[oid].placements;
    TiersOfTwo(ps[0], ps[1]);
    HostTaken(cfg, s, oid, 0);
    OneTier(cfg, s, oid, P.Host, true);
    assert Without(ps, 0) == [OnDisk];
  }

  // ---- Persisting and restoring ------------------------------------------------------------

  /** Persisting an entry that is in host memory only. */
  lemma HostOnlyPersisted(cfg: Config, r: Rules, a: Registry, m: Registry, s: State, oid: Digest, refs: seq<BlockRef>)
    requires Serves(cfg, r) && StateOk(r, a, m, s) && oid in s.entries && s.entries[oid].placements == [InHost(refs)]
    requires F.RoomIn(cfg, s, s.entries[oid], P.Persistent)
    ensures var x := Persist(cfg, s, oid);
      && x.result.Ok? && x.state.arena == s.arena && x.state.host == s.host
      && x.state.entries == s.entries[oid := s.entries[oid].(placements := [InHost(refs), OnDisk], durable := true)]
  {
    hide Serves, StateOk, Ensure, F.RoomIn;
    EntryKeys(r, a, m, s);
    F.PersistOutcome(cfg, r, a, m, s, oid);
    assert IndexOf(s.entries[oid].placements, P.Persistent) == 1;
    HostOnlyEnsured(cfg, r, a, m, s, oid, refs);
  }

  lemma HostOnlyEnsured(cfg: Config, r: Rules, a: Registry, m: Registry, s: State, oid: Digest, refs: seq<BlockRef>)
    requires Serves(cfg, r) && StateOk(r, a, m, s) && oid in s.entries && s.entries[oid].placements == [InHost(refs)]
    requires Ensure(cfg, s, oid, P.Persistent).result.Ok?
    ensures var x := Ensure(cfg, s, oid, P.Persistent);
      && x.state.arena == s.arena && x.state.host == s.host
      && x.state.entries == s.entries[oid := s.entries[oid].(placements := [InHost(refs), OnDisk])]
  {
    hide Serves, StateOk, Materialize, AddPlacement;
    var ps := s.entries[oid].placements;
    EntryKeys(r, a, m, s);
    assert IndexOf(ps, P.Persistent) == 1;
    MaterializeYieldsPayload(cfg, r, a, m, s, oid);
    KeptAddPlacement(cfg, r, a, m, s, oid, P.Persistent);
    AddElsewhereShape(cfg, s, oid, P.Persistent, a[oid].payload);
    var y := AddPlacement(cfg, s, oid, P.Persistent, a[oid].payload);
    var p :| TierOf(p) == P.Persistent && y.state.entries == Push(s, oid, p).entries;
    assert ps + [p] == [InHost(refs), OnDisk];
  }

  /** Restoring an entry that is on disk only into host memory. */
  lemma DiskOnlyRestored(cfg: Config, r: Rules, a: Registry, m: Registry, s: State, oid: Digest, payload: Bytes,
                         bs: seq<BlockRef>, now: u64)
    requires Serves(cfg, r) && StateOk(r, a, m, s) && oid in s.entries && oid in a
    requires s.entries[oid].placements == [OnDisk]
    requires a[oid].payload == payload && r.blocks(a[oid]) == bs && Inside(payload, bs)
    requires !s.entries[oid].quarantined && Charged(s.arena.blocks.Keys, bs) <= Free(s.host)
    ensures Restore(cfg, s, oid, P.Host, now).result.Ok?
    ensures Restore(cfg, s, oid, P.Host, now).state.arena == AcquireAll(cfg.content, s.arena, payload, bs)
    ensures var host := Restore(cfg, s, oid, P.Host, now).state.host;
      host.capacity == s.host.capacity && host.used == s.host.used + Charged(s.arena.blocks.Keys, bs)
        && host.reserved == s.host.reserved
    ensures Restore(cfg, s, oid, P.Host, now).state.entries == WithPlacements(s.entries, oid, [OnDisk, InHost(bs)])
  {
    hide Serves, StateOk, Materialize, AddPlacement, EnforceCapacity, AcquireAll, Charged;
    assert IndexOf(s.entries[oid].placements, P.Host) == 1;
    MaterializeYieldsPayload(cfg, r, a, m, s, oid);
    HostAdded(cfg, r, a, m, s, oid, payload, bs);
    KeptAddPlacement(cfg, r, a, m, s, oid, P.Host);
    var x := AddPlacement(cfg, s, oid, P.Host, payload);
    KeptState(r, a, m, s, x.state, x.ops, {});
    EnforceCapacityIsIdle(cfg, r, a, DescribedAfter(m, a, x.ops), x.state, now);
    assert [OnDisk] + [InHost(bs)] == [OnDisk, InHost(bs)];
  }

  lemma HostAdded(cfg: Config, r: Rules, a: Registry, m: Registry, s: State, oid: Digest, payload: Bytes,
                  bs: seq<BlockRef>)
    requires Serves(cfg, r) && StateOk(r, a, m, s) && oid in s.entries && oid in a
    requires a[oid].payload == payload && r.blocks(a[oid]) == bs && Inside(payload, bs)
    requires Charged(s.arena.blocks.Keys, bs) <= Free(s.host)
    ensures var x := AddPlacement(cfg, s, oid, P.Host, payload);
      && x.result.Ok? && x.state.arena == AcquireAll(cfg.content, s.arena, payload, bs)
      && x.state.host.capacity == s.host.capacity && x.state.host.used == s.host.used + Charged(s.arena.blocks.Keys, bs)
      && x.state.host.reserved == s.host.reserved
      && x.state.entries == WithPlacements(s.entries, oid, s.entries[oid].placements + [InHost(bs)])
  {
    hide Serves, StateOk, AddHost, Usable, AcquireAll, Charged, EntryOk;
    EntryFacts(cfg, r, a, m, s, oid);
    UsablePositive(cfg, r, oid, a[oid]);
    LengthOf(cfg, r, a, m, s, oid);
    ArenaFacts(r, a, m, s);
    AddHostShape(cfg, r, s, oid, a[oid]);
  }

  lemma LengthOf(cfg: Config, r: Rules, a: Registry, m: Registry, s: State, oid: Digest)
    requires Serves(cfg, r) && StateOk(r, a, m, s) && oid in s.entries
    ensures oid in a && s.entries[oid].byteLen == |a[oid].payload|
  {
    hide Serves, StateOk, Usable, DistinctTiers, PlacementOk;
    EntryFacts(cfg, r, a, m, s, oid);
    UsableLength(cfg, r, oid, a[oid]);
  }

  lemma EntryBlocksOf(cfg: Config, r: Rules, w: World, oid: Digest)
    requires Serves(cfg, r) && WorldOk(r, w) && oid in w.s.entries
    ensures oid in w.a && w.s.entries[oid].blocks == r.blocks(w.a[oid])
  {
    hide Serves, StateOk, Usable, DistinctTiers, PlacementOk;
    EntryFacts(cfg, r, w.a, w.m, w.s, oid);
  }

  // ---- The first two events of a run -------------------------------------------------------

  /** A cache just opened over an empty directory, with room for a byte in memory and on disk. */
  ghost predicate Blank(r: Rules, w: World) {
    && WorldOk(r, w) && w.s.entries == map[] && w.a == map[] && w.m == map[] && w.history == iset{}
    && w.s.arena == EMPTY_ARENA && w.s.host.used == 0 && w.s.host.capacity >= 1 && Free(w.s.storage) >= 1
  }

  /** The only object, one byte long, is in memory and on disk. */
  ghost predicate OneOnDisk(cfg: Config, r: Rules, w: World, obj: Object, x: byte) {
    var oid := cfg.name(obj.address);
    && WorldOk(r, w) && w.s.entries.Keys == {oid} && Has(w.s, oid, [InHost(One(cfg, x)), OnDisk], true)
    && w.a.Keys == {oid} && w.a[oid] == obj && r.blocks(obj) == One(cfg, x) && w.s.entries[oid].blocks == One(cfg, x)
    && w.m.Keys == {oid} && w.m[oid] == obj && w.history == iset{(oid, obj)}
    && w.s.arena == With(cfg.content, EMPTY_ARENA, x) && w.s.host.used == 1
  }

  ghost predicate OneInHost(cfg: Config, r: Rules, w: World, obj: Object, x: byte) {
    var oid := cfg.name(obj.address);
    && WorldOk(r, w) && w.s.entries.Keys == {oid} && Has(w.s, oid, [InHost(One(cfg, x))], false)
    && w.a.Keys == {oid} && w.a[oid] == obj && r.blocks(obj) == One(cfg, x) && w.s.entries[oid].blocks == One(cfg, x)
    && w.s.arena == With(cfg.content, EMPTY_ARENA, x) && w.s.host.used == 1
  }

  /** Registering a byte in a cache that holds nothing. */
  lemma RegisterByte(cfg: Config, r: Rules, w: World, address: Address, k: CompatKey, x: byte, now: u64)
    requires Serves(cfg, r) && cfg.blockSize == 1 && Admits(cfg, 1) && CheckPayload(cfg, k, [x]).Ok?
    requires OpOk(cfg, r, DoRegister(address, k, [x]), now)
    requires WorldOk(r, w) && w.s.entries == map[] && w.a == map[] && w.s.arena == EMPTY_ARENA && w.s.host.used == 0
    requires w.s.host.capacity >= 1
    ensures EventOk(cfg, r, w, Run(DoRegister(address, k, [x]), now))
    ensures var w' := Next(cfg, r, w, Run(DoRegister(address, k, [x]), now)); var obj := Object(address, k, [x], now);
      && OneInHost(cfg, r, w', obj, x) && w'.m == w.m && w'.history == w.history + iset{(cfg.name(address), obj)}
      && w'.s.storage == w.s.storage && w'.s.host.capacity == w.s.host.capacity && w'.s.disk == w.s.disk
      && w'.s.diskRefs == w.s.diskRefs
  {
    hide Serves, StateOk, CheckPayload, Register, Admits, OpOk, With;
    RegisterByteState(cfg, r, w.m, w.s, address, k, x, now);
    Runs(cfg, r, w, DoRegister(address, k, [x]), now);
    CheckedObjectBlocks(cfg, r, address, k, [x], now);
    OneBlock(cfg, k, x);
  }

  lemma RegisterByteState(cfg: Config, r: Rules, m: Registry, s: State, address: Address, k: CompatKey, x: byte,
                          now: u64)
    requires Serves(cfg, r) && cfg.blockSize == 1 && Admits(cfg, 1) && CheckPayload(cfg, k, [x]).Ok?
    requires OpOk(cfg, r, DoRegister(address, k, [x]), now)
    requires StateOk(r, map[], m, s) && s.entries == map[] && s.arena == EMPTY_ARENA && s.host.used == 0
    requires s.host.capacity >= 1
    ensures var y := Register(cfg, s, address, k, [x], now); var oid := cfg.name(address);
      && y.result.Ok? && y.ops == []
      && y.state.entries.Keys == {oid} && Has(y.state, oid, [InHost(One(cfg, x))], false)
      && y.state.entries[oid].blocks == One(cfg, x)
      && y.state.arena == With(cfg.content, EMPTY_ARENA, x) && y.state.host.used == 1
      && y.state.host.capacity == s.host.capacity
      && y.state.storage == s.storage && y.state.disk == s.disk && y.state.diskRefs == s.diskRefs
  {
    hide Serves, StateOk, CheckPayload, Register, Admits, Charged, Added, HostCounted, OpOk, With, AcquireAll;
    OneBlock(cfg, k, x);
    OneCharged({}, ByteRef(cfg.content, x, 0));
    RegisterFresh(cfg, r, m, s, address, k, [x], now);
    AcquireOne(cfg.content, EMPTY_ARENA, x);
    RegisterTouchesNoFile(cfg, s, address, k, [x], now);
  }

  lemma CheckedObjectBlocks(cfg: Config, r: Rules, address: Address, k: CompatKey, payload: Bytes, now: u64)
    requires Serves(cfg, r) && CheckPayload(cfg, k, payload).Ok? && OpOk(cfg, r, DoRegister(address, k, payload), now)
    ensures r.blocks(Object(address, k, payload, now)) == BlocksFor(cfg, k, payload)
  {
    hide Serves, CheckPayload, Usable;
    CheckedObject(cfg, r, address, k, payload, now);
  }

  /** Persisting it. */
  lemma PersistByte(cfg: Config, r: Rules, w: World, obj: Object, x: byte, now: u64)
    requires Serves(cfg, r) && cfg.hasStore && OneInHost(cfg, r, w, obj, x) && Free(w.s.storage) >= 1
    requires w.m == map[] && w.history == iset{(cfg.name(obj.address), obj)}
    ensures EventOk(cfg, r, w, Run(DoPersist(cfg.name(obj.address)), now))
    ensures OneOnDisk(cfg, r, Next(cfg, r, w, Run(DoPersist(cfg.name(obj.address)), now)), obj, x)
  {
    hide Serves, StateOk, Persist, With;
    var oid := cfg.name(obj.address);
    OneCharged(w.s.diskRefs.Keys, ByteRef(cfg.content, x, 0));
    HostOnlyPersisted(cfg, r, w.a, w.m, w.s, oid, One(cfg, x));
    Runs(cfg, r, w, DoPersist(oid), now);
    var w' := Next(cfg, r, w, Run(DoPersist(oid), now));
    assert OnDisk in w'.s.entries[oid].placements;
    PersistedFacts(r, w'.a, w'.m, w'.s, oid);
    assert forall o :: o in w'.m ==> (o, w'.m[o]) in w'.history;
  }

  /** From a blank cache: register a byte and persist it. */
  lemma RegisterThenPersist(cfg: Config, r: Rules, w: World, address: Address, k: CompatKey, x: byte, now: u64)
    returns (evs: seq<Event>)
    requires Serves(cfg, r) && cfg.hasStore && cfg.blockSize == 1 && Admits(cfg, 1) && CheckPayload(cfg, k, [x]).Ok?
    requires OpOk(cfg, r, DoRegister(address, k, [x]), now) && Blank(r, w)
    ensures RunOk(cfg, r, w, evs) && OneOnDisk(cfg, r, After(cfg, r, w, evs), Object(address, k, [x], now), x)
  {
    hide Serves, Next, EventOk, OneInHost, OneOnDisk, Admits, CheckPayload, OpOk;
    var obj := Object(address, k, [x], now);
    var e1, e2 := Run(DoRegister(address, k, [x]), now), Run(DoPersist(cfg.name(address)), now);
    RegisterByte(cfg, r, w, address, k, x, now);
    RunSnoc(cfg, r, w, [], e1);
    var w1 := Next(cfg, r, w, e1);
    PersistByte(cfg, r, w1, obj, x, now);
    RunSnoc(cfg, r, w, [] + [e1], e2);
    evs := [] + [e1] + [e2];
  }
}

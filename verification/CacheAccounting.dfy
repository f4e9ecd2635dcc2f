/**
 * Host byte accounting. The charge made for a registration counts every occurrence of a block that was missing
 * before room was made; what is stored is one copy of each block missing afterwards. The two agree exactly
 * under conditions on the payload and on what was evicted, and drift apart otherwise.
 */
module CacheAccounting {
  import opened Prelude
  import opened Storage
  import opened Accounting
  import opened BlockArena
  import opened Compat
  import opened CacheSpec
  import opened CacheLoads
  import opened DiskSafety
  import opened CacheInvariant
  import opened CacheSteps
  import opened CacheKept
  import opened CacheOperations
  import opened CacheRuns
  import P = Planner

  /** References are exact and the budget covers the arena; when tight, it equals it. */
  ghost predicate HostCounted(arena: Arena, host: Budget, total: multiset<Item>, tight: bool) {
    && (forall h :: RefCount(arena, h) == total[HostRef(h)])
    && arena.bytes <= host.used
    && (tight ==> arena.bytes == host.used)
  }

  ghost predicate DurableOnDisk(entries: map<Digest, Entry>) {
    forall oid :: oid in entries && entries[oid].durable ==> OnDisk in entries[oid].placements
  }

  ghost predicate Counted(s: State, tight: bool) {
    HostCounted(s.arena, s.host, TotalLoad(s.entries), tight)
  }

  // ---- Releasing ---------------------------------------------------------------------------

  /** The recorded lengths of a good object's blocks are those of the stored blocks. */
  lemma GoodLengths(cfg: Config, r: Rules, arena: Arena, oid: Digest, obj: Object)
    requires r.content == cfg.content && NoCollision(r.content, r.known) && Usable(cfg, r, oid, obj)
    requires Consistent(r.content, arena) && Within(arena, r.known)
    ensures TrueLengths(arena, r.blocks(obj))
  {
    forall b | b in r.blocks(obj) && b.hash in arena.blocks
      ensures b.len == |arena.blocks[b.hash]|
    {
      assert Describes(cfg.content, obj.payload, b) && Stretch(obj.payload, b) in r.known;
      assert arena.blocks[b.hash] == Stretch(obj.payload, b);
    }
  }

  lemma ReleaseCounted(c: Content, arena: Arena, host: Budget, total: multiset<Item>, refs: seq<BlockRef>, tight: bool)
    requires Consistent(c, arena) && HostCounted(arena, host, total + Tagged(refs, false), tight)
    requires TrueLengths(arena, refs)
    ensures var (arena', host', ok) := ReleaseAll(arena, host, refs);
      ok && HostCounted(arena', host', total, tight) && host'.used - arena'.bytes == host.used - arena.bytes
  {
    ReleaseAllConserves(c, arena, host, refs);
    var (arena', host', ok) := ReleaseAll(arena, host, refs);
    forall h
      ensures RefCount(arena', h) == total[HostRef(h)]
    {
      TaggedCounts(refs, false, HostRef(h));
      assert RefCount(arena, h) == (total + Tagged(refs, false))[HostRef(h)];
      ReleaseAllCounts(c, arena, host, refs, h);
    }
  }

  lemma CountedIgnores(arena: Arena, host: Budget, total: multiset<Item>, tight: bool, b: BackendId, data: Bytes,
                       blocks: seq<BlockRef>)
    ensures HostCounted(arena, host, total + Load(blocks, OnDevice(b, data)), tight) <==>
      HostCounted(arena, host, total, tight)
    ensures HostCounted(arena, host, total + Tagged(blocks, true), tight) <==> HostCounted(arena, host, total, tight)
  {
    DeviceLoad(total, b, data, blocks);
    DiskLoadOnly(total, blocks);
    if HostCounted(arena, host, total + Load(blocks, OnDevice(b, data)), tight) {
      assert forall h :: RefCount(arena, h) == (total + Load(blocks, OnDevice(b, data)))[HostRef(h)];
    }
    if HostCounted(arena, host, total + Tagged(blocks, true), tight) {
      assert forall h :: RefCount(arena, h) == (total + Tagged(blocks, true))[HostRef(h)];
    }
  }

  /** While the budget covers the arena, removing a resident placement never fails and keeps the account. */
  lemma CountedRemovePlacement(cfg: Config, r: Rules, a: Registry, m: Registry, s: State, oid: Digest, t: Tier,
                               tight: bool)
    requires Serves(cfg, r) && StateOk(r, a, m, s) && Counted(s, tight)
    ensures var x := RemovePlacement(cfg, s, oid, t);
      && Counted(x.state, tight) && Drift(x.state) == Drift(s)
      && (x.result.Ok? <==> oid in s.entries && HasTier(s.entries[oid], t))
  {
    hide StateOk, Serves, HostCounted, Usable, ReleaseAll, DropBlocks, TotalLoad;
    if oid in s.entries && HasTier(s.entries[oid], t) {
      var e := s.entries[oid];
      var i := IndexOf(e.placements, t);
      EntryFacts(cfg, r, a, m, s, oid);
      assert PlacementOk(r.hasStore, s.backends.Keys, a[oid], e.blocks, e.placements[i]);
      RemovePlacementShape(cfg, s, oid, t);
      TotalWithout(s.entries, oid, i);
      match e.placements[i]
      case InHost(refs) =>
        ArenaFacts(r, a, m, s);
        GoodLengths(cfg, r, s.arena, oid, a[oid]);
        ReleaseCounted(r.content, s.arena, s.host, TotalLoad(Taken(s, oid, i).entries), refs, tight);
      case OnDevice(b, data) =>
        CountedIgnores(s.arena, s.host, TotalLoad(Taken(s, oid, i).entries), tight, b, data, e.blocks);
      case OnDisk =>
        CountedIgnores(s.arena, s.host, TotalLoad(Taken(s, oid, i).entries), tight, [], [], e.blocks);
    }
  }

  lemma ArenaFacts(r: Rules, a: Registry, m: Registry, s: State)
    requires StateOk(r, a, m, s)
    ensures Consistent(r.content, s.arena) && Within(s.arena, r.known) && Sound(s.host) && s.host.reserved == 0
  {
    hide EntriesOk, DeviceOk, StoreOk, DiskSound, Linked, Consistent, Within;
  }

  lemma {:induction false} CountedRemoveTiers(cfg: Config, r: Rules, a: Registry, m: Registry, s: State, oid: Digest,
                                              tiers: seq<Tier>, strict: bool, tight: bool)
    requires Serves(cfg, r) && StateOk(r, a, m, s) && Counted(s, tight)
    ensures var x := RemoveTiers(cfg, s, oid, tiers, strict).state; Counted(x, tight) && Drift(x) == Drift(s)
    decreases |tiers|
  {
    hide StateOk, Serves, Counted, RemovePlacement;
    if tiers != [] {
      var y := RemovePlacement(cfg, s, oid, tiers[0]);
      CountedRemovePlacement(cfg, r, a, m, s, oid, tiers[0], tight);
      KeptRemovePlacement(cfg, r, a, m, s, oid, tiers[0]);
      KeptState(r, a, m, s, y.state, y.ops, if tiers[0] == P.Persistent then {oid} else {});
      if !(strict && y.result.Err?) {
        CountedRemoveTiers(cfg, r, a, DescribedAfter(m, a, y.ops), y.state, oid, tiers[1..], strict, tight);
      }
    }
  }

  ghost predicate AllHeld(ps: seq<Placement>, tiers: seq<Tier>) {
    && (forall i :: 0 <= i < |tiers| ==> IndexOf(ps, tiers[i]) < |ps|)
    && forall i, j :: 0 <= i < j < |tiers| ==> tiers[i] != tiers[j]
  }

  lemma StillHeld(ps: seq<Placement>, tiers: seq<Tier>)
    requires AllHeld(ps, tiers) && tiers != []
    ensures AllHeld(Without(ps, IndexOf(ps, tiers[0])), tiers[1..])
  {
    var k := IndexOf(ps, tiers[0]);
    var qs := Without(ps, k);
    forall i | 0 <= i < |tiers[1..]|
      ensures IndexOf(qs, tiers[1..][i]) < |qs|
    {
      var t := tiers[i + 1];
      var j := IndexOf(ps, t);
      assert TierOf(ps[j]) == t && t != tiers[0];
      assert qs[if j < k then j else j - 1] == ps[j];
    }
  }

  /** Removing placements that an entry has always succeeds. */
  lemma {:induction false} StripSucceeds(cfg: Config, r: Rules, a: Registry, m: Registry, s: State, oid: Digest,
                                         tiers: seq<Tier>, tight: bool)
    requires Serves(cfg, r) && StateOk(r, a, m, s) && Counted(s, tight) && oid in s.entries
    requires AllHeld(s.entries[oid].placements, tiers)
    ensures RemoveTiers(cfg, s, oid, tiers, true).result.Ok?
    decreases |tiers|
  {
    hide StateOk, Serves, Counted, RemovePlacement, IndexOf;
    if tiers != [] {
      var y := RemovePlacement(cfg, s, oid, tiers[0]);
      CountedRemovePlacement(cfg, r, a, m, s, oid, tiers[0], tight);
      KeptRemovePlacement(cfg, r, a, m, s, oid, tiers[0]);
      KeptState(r, a, m, s, y.state, y.ops, if tiers[0] == P.Persistent then {oid} else {});
      RemovePlacementShape(cfg, s, oid, tiers[0]);
      StillHeld(s.entries[oid].placements, tiers);
      StripSucceeds(cfg, r, a, DescribedAfter(m, a, y.ops), y.state, oid, tiers[1..], tight);
    }
  }

  lemma {:induction false} TiersAreHeld(ps: seq<Placement>)
    requires DistinctTiers(ps)
    ensures AllHeld(ps, Tiers(ps)) && AllHeld(ps, Volatile(Tiers(ps)))
  {
    TiersUnique(ps);
    VolatileUnique(Tiers(ps));
    forall t | t in Tiers(ps)
      ensures IndexOf(ps, t) < |ps|
    {
      TiersMembers(ps, t);
    }
    forall i | 0 <= i < |Volatile(Tiers(ps))|
      ensures IndexOf(ps, Volatile(Tiers(ps))[i]) < |ps|
    {
      VolatileMembers(Tiers(ps), Volatile(Tiers(ps))[i]);
    }
  }

  ghost predicate Unique(tiers: seq<Tier>) {
    forall i, j :: 0 <= i < j < |tiers| ==> tiers[i] != tiers[j]
  }

  lemma {:induction false} TiersUnique(ps: seq<Placement>)
    requires DistinctTiers(ps)
    ensures Unique(Tiers(ps))
  {
    if ps != [] {
      TiersUnique(ps[1..]);
      TiersMembers(ps[1..], TierOf(ps[0]));
    }
  }

  lemma {:induction false} VolatileUnique(tiers: seq<Tier>)
    requires Unique(tiers)
    ensures Unique(Volatile(tiers))
  {
    if tiers != [] {
      VolatileUnique(tiers[1..]);
      VolatileMembers(tiers[1..], tiers[0]);
    }
  }

  lemma {:induction false} CountedEvictInOrder(cfg: Config, r: Rules, a: Registry, m: Registry, s: State,
                                               order: seq<Digest>, goal: Goal, tight: bool)
    requires Serves(cfg, r) && StateOk(r, a, m, s) && Counted(s, tight)
    ensures var x := EvictInOrder(cfg, s, order, goal); Counted(x, tight) && Drift(x) == Drift(s)
    decreases |order|
  {
    hide StateOk, Serves, Counted, RemoveTiers, Reached;
    if order != [] && !CacheSpec.Reached(goal, s) {
      var s1 := EvictOne(cfg, s, order[0]);
      if order[0] in s.entries {
        CountedRemoveTiers(cfg, r, a, m, s, order[0], Volatile(Tiers(s.entries[order[0]].placements)), false, tight);
      }
      KeptEvictOne(cfg, r, a, m, s, order[0]);
      KeptState(r, a, m, s, s1, [], {});
      CountedEvictInOrder(cfg, r, a, m, s1, order[1..], goal, tight);
    }
  }

  // ---- Acquiring ---------------------------------------------------------------------------

  /** Storing blocks under a charge: the account moves by the charge minus what was really added. */
  lemma AcquireCounted(cfg: Config, r: Rules, arena: Arena, host: Budget, total: multiset<Item>, oid: Digest,
                       obj: Object, charge: nat)
    requires r.content == cfg.content && NoCollision(r.content, r.known) && Usable(cfg, r, oid, obj)
    requires Consistent(r.content, arena) && Within(arena, r.known)
    requires forall h :: RefCount(arena, h) == total[HostRef(h)]
    requires host.used + charge <= U64_MAX
    ensures var bs := r.blocks(obj); var arena' := AcquireAll(cfg.content, arena, obj.payload, bs);
      var added := Added(arena.blocks.Keys, bs);
      && (forall h :: RefCount(arena', h) == (total + Tagged(bs, false))[HostRef(h)])
      && (host.used + charge) - arena'.bytes == (host.used - arena.bytes) + (charge - added)
  {
    var bs := r.blocks(obj);
    AcquireAllStores(r.content, r.known, arena, obj.payload, bs);
    forall h
      ensures RefCount(AcquireAll(cfg.content, arena, obj.payload, bs), h) == (total + Tagged(bs, false))[HostRef(h)]
    {
      AcquireAllCounts(r.content, arena, obj.payload, bs, h);
      TaggedCounts(bs, false, HostRef(h));
    }
  }

  /** No block occurs twice in the object. */
  ghost predicate NoRepeat(blocks: seq<BlockRef>) {
    forall i, j :: 0 <= i < j < |blocks| ==> blocks[i].hash != blocks[j].hash
  }

  /**
   * Charge and addition compared, when the charge was computed against `had` and the blocks are stored over the
   * smaller set `have`. If nothing the payload needs was lost in between, the charge covers the addition, and
   * equals it exactly when no missing block repeats.
   */
  lemma ChargeAgainstLoss(had: set<Digest>, have: set<Digest>, blocks: seq<BlockRef>)
    requires have <= had && Positive(blocks)
    requires forall i :: 0 <= i < |blocks| && blocks[i].hash in had ==> blocks[i].hash in have
    ensures Added(have, blocks) <= Charged(had, blocks)
    ensures Added(have, blocks) == Charged(had, blocks) <==> NoNewRepeat(have, blocks)
  {
    ChargedMonotone(have, had, blocks);
    ChargeExactIffNoRepeat(have, blocks);
  }

  /** Without repeats, charge and addition agree exactly when making room lost none of the payload's blocks. */
  lemma ChargeExactIffNothingLost(had: set<Digest>, have: set<Digest>, blocks: seq<BlockRef>)
    requires have <= had && Positive(blocks) && NoRepeat(blocks)
    ensures Charged(had, blocks) <= Added(have, blocks)
    ensures Charged(had, blocks) == Added(have, blocks) <==>
      forall i :: 0 <= i < |blocks| && blocks[i].hash in had ==> blocks[i].hash in have
  {
    ChargedMonotone(have, had, blocks);
    ChargeExactIffNoRepeat(have, blocks);
    assert NoNewRepeat(have, blocks);
  }

  // ---- Registration ------------------------------------------------------------------------

  /** Budget minus arena: zero when the account is exact. */
  function Drift(s: State): int {
    s.host.used - s.arena.bytes
  }

  /** The state after room was made for a charge. */
  ghost function WithRoom(cfg: Config, s: State, charge: nat, now: u64): State {
    if charge > Free(s.host) then EvictToFree(cfg, s, charge, now) else s
  }

  lemma {:induction false} EvictionShrinks(cfg: Config, r: Rules, a: Registry, m: Registry, s: State,
                                           order: seq<Digest>, goal: Goal)
    requires Serves(cfg, r) && StateOk(r, a, m, s)
    ensures EvictInOrder(cfg, s, order, goal).arena.blocks.Keys <= s.arena.blocks.Keys
    decreases |order|
  {
    hide StateOk, Serves, EvictOne, Reached;
    if order != [] && !CacheSpec.Reached(goal, s) {
      var s1 := EvictOne(cfg, s, order[0]);
      KeptEvictOne(cfg, r, a, m, s, order[0]);
      KeptState(r, a, m, s, s1, [], {});
      EvictOneShrinks(cfg, r, a, m, s, order[0]);
      EvictionShrinks(cfg, r, a, m, s1, order[1..], goal);
    }
  }

  lemma EvictOneShrinks(cfg: Config, r: Rules, a: Registry, m: Registry, s: State, oid: Digest)
    requires Serves(cfg, r) && StateOk(r, a, m, s)
    ensures EvictOne(cfg, s, oid).arena.blocks.Keys <= s.arena.blocks.Keys
  {
    hide StateOk, Serves, RemoveTiers;
    if oid in s.entries {
      RemoveTiersShrinks(cfg, r, a, m, s, oid, Volatile(Tiers(s.entries[oid].placements)), false);
    }
  }

  lemma {:induction false} RemoveTiersShrinks(cfg: Config, r: Rules, a: Registry, m: Registry, s: State, oid: Digest,
                                              tiers: seq<Tier>, strict: bool)
    requires Serves(cfg, r) && StateOk(r, a, m, s)
    ensures RemoveTiers(cfg, s, oid, tiers, strict).state.arena.blocks.Keys <= s.arena.blocks.Keys
    decreases |tiers|
  {
    hide StateOk, Serves, RemovePlacement;
    if tiers != [] {
      var y := RemovePlacement(cfg, s, oid, tiers[0]);
      KeptRemovePlacement(cfg, r, a, m, s, oid, tiers[0]);
      KeptState(r, a, m, s, y.state, y.ops, if tiers[0] == P.Persistent then {oid} else {});
      RemoveShrinks(cfg, r, a, m, s, oid, tiers[0]);
      if !(strict && y.result.Err?) {
        RemoveTiersShrinks(cfg, r, a, DescribedAfter(m, a, y.ops), y.state, oid, tiers[1..], strict);
      }
    }
  }

  lemma RemoveShrinks(cfg: Config, r: Rules, a: Registry, m: Registry, s: State, oid: Digest, t: Tier)
    requires StateOk(r, a, m, s)
    ensures RemovePlacement(cfg, s, oid, t).state.arena.blocks.Keys <= s.arena.blocks.Keys
  {
    hide StateOk, ReleaseAll, DropBlocks, Consistent;
    if oid in s.entries && HasTier(s.entries[oid], t) {
      var p := s.entries[oid].placements[IndexOf(s.entries[oid].placements, t)];
      if p.InHost? {
        ArenaFacts(r, a, m, s);
        ReleaseAllKeeps(r.content, s.arena, s.host, p.refs);
      }
    }
  }

  lemma RoomCounted(cfg: Config, r: Rules, a: Registry, m: Registry, s: State, charge: nat, now: u64, tight: bool)
    requires Serves(cfg, r) && StateOk(r, a, m, s) && Counted(s, tight)
    ensures Counted(WithRoom(cfg, s, charge, now), tight) && StateOk(r, a, m, WithRoom(cfg, s, charge, now))
    ensures WithRoom(cfg, s, charge, now).arena.blocks.Keys <= s.arena.blocks.Keys
  {
    hide StateOk, Serves, Counted, EvictInOrder, EvictionList, Kept;
    RoomMade(cfg, r, a, m, s, charge, now);
    KeptState(r, a, m, s, WithRoom(cfg, s, charge, now), [], {});
    CountedEvictInOrder(cfg, r, a, m, s, EvictionList(cfg, now, s), FreeAtLeast(charge), tight);
    EvictionShrinks(cfg, r, a, m, s, EvictionList(cfg, now, s), FreeAtLeast(charge));
  }

  /** A registered object stored and entered over `s`. */
  function Inserted(cfg: Config, s: State, a: Address, k: CompatKey, payload: Bytes, charge: nat, now: u64): State
    requires CheckPayload(cfg, k, payload).Ok? && Inside(payload, CheckPayload(cfg, k, payload).value.0)
    requires s.host.used + charge <= U64_MAX
  {
    var (blocks, numel) := CheckPayload(cfg, k, payload).value;
    s.(arena := AcquireAll(cfg.content, s.arena, payload, blocks), host := s.host.(used := s.host.used + charge),
       entries := s.entries[cfg.name(a) := NewEntry(cfg, a, k, payload, numel, blocks, now)],
         objectCount := s.objectCount + 1)
  }

  function BlocksFor(cfg: Config, k: CompatKey, payload: Bytes): seq<BlockRef> {
    if CheckPayload(cfg, k, payload).Ok? then CheckPayload(cfg, k, payload).value.0 else []
  }

  /** What a registration is charged: every occurrence of a block the arena lacks beforehand. */
  function ChargeFor(cfg: Config, s: State, k: CompatKey, payload: Bytes): nat {
    Charged(s.arena.blocks.Keys, BlocksFor(cfg, k, payload))
  }

  /** What a successful registration has passed. */
  lemma RegistrationPassed(cfg: Config, s: State, address: Address, k: CompatKey, payload: Bytes, now: u64)
    requires Register(cfg, s, address, k, payload, now).result.Ok?
    ensures CheckPayload(cfg, k, payload).Ok? && cfg.name(address) !in s.entries && Admits(cfg, |payload|)
    ensures ChargeFor(cfg, s, k, payload) <= Free(WithRoom(cfg, s, ChargeFor(cfg, s, k, payload), now).host)
  {
    hide CheckPayload, Admits, StoreBlocks, EvictToFree, EnforceCapacity, NewEntry, Charged;
  }

  /** The checks and the room-making lead to a state over which the object can be stored. */
  lemma RoomFor(cfg: Config, r: Rules, a: Registry, m: Registry, s: State, address: Address, charge: nat, now: u64)
    requires Serves(cfg, r) && StateOk(r, a, m, s) && cfg.name(address) !in s.entries
    ensures var s1 := WithRoom(cfg, s, charge, now);
      StateOk(r, a, m, s1) && cfg.name(address) !in s1.entries
        && (charge <= Free(s1.host) ==> s1.host.used + charge <= U64_MAX)
  {
    hide Serves, StateOk, EvictToFree, Kept;
    var s1 := WithRoom(cfg, s, charge, now);
    RoomMade(cfg, r, a, m, s, charge, now);
    KeptState(r, a, m, s, s1, [], {});
    EntryKeys(r, a, m, s);
    EntryKeys(r, a, m, s1);
    ReservationCommits(s1.host, charge);
  }

  /** A successful registration stores its object over the state in which room was made. */
  lemma RegistrationStoresAfterRoom(cfg: Config, r: Rules, a: Registry, m: Registry, s: State, address: Address,
                                    k: CompatKey, payload: Bytes, now: u64)
    requires Serves(cfg, r) && StateOk(r, a, m, s) && OpOk(cfg, r, DoRegister(address, k, payload), now)
    requires Register(cfg, s, address, k, payload, now).result.Ok?
    ensures var charge := ChargeFor(cfg, s, k, payload); var s1 := WithRoom(cfg, s, charge, now);
      && CheckPayload(cfg, k, payload).Ok? && Inside(payload, BlocksFor(cfg, k, payload))
      && StateOk(r, a, m, s1) && charge <= Free(s1.host) && s1.host.used + charge <= U64_MAX
      && cfg.name(address) !in s1.entries
      && Register(cfg, s, address, k, payload, now).state == Inserted(cfg, s1, address, k, payload, charge, now)
  {
    hide Serves, StateOk, StoreBlocks, EvictToFree, EnforceCapacity, CheckPayload, NewEntry, Admits, AcquireAll;
    hide Register, Charged;
    var oid, obj := cfg.name(address), Object(address, k, payload, now);
    var charge := ChargeFor(cfg, s, k, payload);
    var s1 := WithRoom(cfg, s, charge, now);
    RegistrationPassed(cfg, s, address, k, payload, now);
    var (blocks, numel) := CheckPayload(cfg, k, payload).value;
    RoomFor(cfg, r, a, m, s, address, charge, now);
    EntryKeys(r, a, m, s1);
    RegisterStores(cfg, r, a, m, s1, address, k, payload, charge, now);
    RegisterUnfolds(cfg, s, address, k, payload, now);
    StoreBlocksUnfolds(cfg, s1, payload, blocks, charge);
    EnforceCapacityIsIdle(cfg, r, a[oid := obj], m, Inserted(cfg, s1, address, k, payload, charge, now), now);
  }

  /** A refused registration has at most made room. */
  lemma RegistrationRefused(cfg: Config, r: Rules, a: Registry, m: Registry, s: State, address: Address, k: CompatKey,
                            payload: Bytes, now: u64)
    requires Serves(cfg, r) && StateOk(r, a, m, s) && OpOk(cfg, r, DoRegister(address, k, payload), now)
    requires Register(cfg, s, address, k, payload, now).result.Err?
    ensures var s' := Register(cfg, s, address, k, payload, now).state;
      s' == s || s' == WithRoom(cfg, s, ChargeFor(cfg, s, k, payload), now)
  {
    hide Serves, StateOk, StoreBlocks, EvictToFree, EnforceCapacity, CheckPayload, NewEntry, Admits, Charged;
    if CheckPayload(cfg, k, payload).Ok? && cfg.name(address) !in s.entries && Admits(cfg, |payload|) {
      var charge := ChargeFor(cfg, s, k, payload);
      RoomFor(cfg, r, a, m, s, address, charge, now);
      if charge <= Free(WithRoom(cfg, s, charge, now).host) {
        RegisterStores(cfg, r, a, m, WithRoom(cfg, s, charge, now), address, k, payload, charge, now);
      }
    }
  }

  lemma InsertionDrift(cfg: Config, r: Rules, a: Registry, m: Registry, s: State, address: Address, k: CompatKey,
                       payload: Bytes, charge: nat, now: u64)
    requires Serves(cfg, r) && StateOk(r, a, m, s) && CheckPayload(cfg, k, payload).Ok?
    requires Inside(payload, CheckPayload(cfg, k, payload).value.0)
    requires r.good(cfg.name(address), Object(address, k, payload, now)) && cfg.name(address) !in s.entries
    requires s.host.used + charge <= U64_MAX
    requires forall h :: RefCount(s.arena, h) == TotalLoad(s.entries)[HostRef(h)]
    ensures var s' := Inserted(cfg, s, address, k, payload, charge, now); var bs := BlocksFor(cfg, k, payload);
      && (forall h :: RefCount(s'.arena, h) == TotalLoad(s'.entries)[HostRef(h)])
      && Drift(s') == Drift(s) + charge - Added(s.arena.blocks.Keys, bs) && Positive(bs)
  {
    hide Serves, StateOk, Usable, EntryOk, CheckPayload, NewEntry, AcquireAll, TotalLoad, Consistent, Within;
    hide NoCollision, RefCount;
    var oid, obj := cfg.name(address), Object(address, k, payload, now);
    var (blocks, numel) := CheckPayload(cfg, k, payload).value;
    ServesFacts(cfg, r);
    CheckedObject(cfg, r, address, k, payload, now);
    ArenaFacts(r, a, m, s);
    AcquireCounted(cfg, r, s.arena, s.host, TotalLoad(s.entries), oid, obj, charge);
    NewEntryShape(cfg, address, k, payload, numel, blocks, now);
    TotalInserted(s.entries, oid, NewEntry(cfg, address, k, payload, numel, blocks, now), InHost(blocks));
    UsablePositive(cfg, r, oid, obj);
  }

  /**
   * The exact effect of a successful registration on the account: references stay exact, and the drift grows by the
   * charge (computed before room was made) minus the bytes really added (after it was made).
   */
  lemma RegistrationDrift(cfg: Config, r: Rules, a: Registry, m: Registry, s: State, address: Address, k: CompatKey,
                          payload: Bytes, now: u64)
    requires Serves(cfg, r) && StateOk(r, a, m, s) && Counted(s, false)
    requires OpOk(cfg, r, DoRegister(address, k, payload), now)
    requires Register(cfg, s, address, k, payload, now).result.Ok?
    ensures var s' := Register(cfg, s, address, k, payload, now).state; var bs := BlocksFor(cfg, k, payload);
      var s1 := WithRoom(cfg, s, ChargeFor(cfg, s, k, payload), now);
      && (forall h :: RefCount(s'.arena, h) == TotalLoad(s'.entries)[HostRef(h)])
      && Drift(s') == Drift(s1) + ChargeFor(cfg, s, k, payload) - Added(s1.arena.blocks.Keys, bs)
      && s1.arena.blocks.Keys <= s.arena.blocks.Keys && Positive(bs)
  {
    hide Serves, StateOk, CheckPayload, Inserted, WithRoom, Register, HostCounted, RefCount, TotalLoad;
    var charge := ChargeFor(cfg, s, k, payload);
    var s1 := WithRoom(cfg, s, charge, now);
    RegistrationStoresAfterRoom(cfg, r, a, m, s, address, k, payload, now);
    RoomCounted(cfg, r, a, m, s, charge, now, false);
    assert forall h :: RefCount(s1.arena, h) == TotalLoad(s1.entries)[HostRef(h)] by { CountedRefs(s1, false); }
    InsertionDrift(cfg, r, a, m, s1, address, k, payload, charge, now);
  }

  lemma CountedRefs(s: State, tight: bool)
    requires Counted(s, tight)
    ensures forall h :: RefCount(s.arena, h) == TotalLoad(s.entries)[HostRef(h)]
    ensures Drift(s) >= 0 && (tight ==> Drift(s) == 0)
  {
  }

  lemma ServesFacts(cfg: Config, r: Rules)
    requires Serves(cfg, r)
    ensures r.content == cfg.content && r.hasStore == cfg.hasStore && NoCollision(r.content, r.known)
  {
  }

  lemma UsablePositive(cfg: Config, r: Rules, oid: Digest, obj: Object)
    requires Usable(cfg, r, oid, obj)
    ensures Positive(r.blocks(obj)) && Inside(obj.payload, r.blocks(obj)) && |obj.payload| < TWO_64
  {
  }

  lemma StoreBlocksUnfolds(cfg: Config, s: State, payload: Bytes, blocks: seq<BlockRef>, charge: nat)
    requires Inside(payload, blocks) && Sound(s.host) && charge <= Free(s.host)
    ensures StoreBlocks(cfg, s, payload, blocks, charge) ==
      (s.(arena := AcquireAll(cfg.content, s.arena, payload, blocks), host := s.host.(used := s.host.used + charge)),
        true)
  {
    ReservationCommits(s.host, charge);
  }

  lemma NewEntryShape(cfg: Config, a: Address, k: CompatKey, payload: Bytes, numel: u64, blocks: seq<BlockRef>,
                      now: u64)
    requires |payload| < TWO_64
    ensures var e := NewEntry(cfg, a, k, payload, numel, blocks, now);
      e.placements == [InHost(blocks)] && e.blocks == blocks && !e.durable
  {
  }
}

/**
 * Durable entries and their storage placement. Every operation but deletion keeps "durable implies on disk" outright;
 * a deletion keeps it unless giving memory back fails after the storage placement is gone.
 */
module CacheDurability {
  import opened Prelude
  import opened BlockArena
  import opened Compat
  import opened CacheSpec
  import opened DiskSafety
  import opened CacheInvariant
  import opened CacheKept
  import opened CacheOperations
  import opened CacheRuns
  import opened CacheCrashes
  import opened CacheAccounting
  import E = CacheEviction
  import P = Planner

  // ---- Adding and removing -----------------------------------------------------------------

  lemma PushKeepsDurable(s: State, oid: Digest, p: Placement)
    requires DurableOnDisk(s.entries) && oid in s.entries
    ensures DurableOnDisk(Push(s, oid, p).entries)
  {
  }

  lemma AddKeepsDurable(cfg: Config, r: Rules, a: Registry, m: Registry, s: State, oid: Digest, t: Tier)
    requires Serves(cfg, r) && StateOk(r, a, m, s) && DurableOnDisk(s.entries)
    requires oid in s.entries && oid in a && !HasTier(s.entries[oid], t)
    ensures DurableOnDisk(AddPlacement(cfg, s, oid, t, a[oid].payload).state.entries)
  {
    hide Serves, StateOk, AddPlacement, HasTier, DurableOnDisk, Push;
    KeptAddPlacement(cfg, r, a, m, s, oid, t);
    var x := AddPlacement(cfg, s, oid, t, a[oid].payload);
    if x.result.Ok? {
      var p :| TierOf(p) == t && x.state.entries == Push(s, oid, p).entries;
      PushKeepsDurable(s, oid, p);
    }
  }

  lemma TakeKeepsDurable(cfg: Config, s: State, oid: Digest, t: Tier)
    requires t != P.Persistent && DurableOnDisk(s.entries)
    ensures DurableOnDisk(RemovePlacement(cfg, s, oid, t).state.entries)
  {
    hide RemovePlacement, Without;
    RemovePlacementShape(cfg, s, oid, t);
    if oid in s.entries && HasTier(s.entries[oid], t) {
      var ps := s.entries[oid].placements;
      if OnDisk in ps {
        WithoutKeepsOthers(ps, IndexOf(ps, t), OnDisk);
      }
    }
  }

  lemma {:induction false} StripKeepsDurable(cfg: Config, s: State, oid: Digest, tiers: seq<Tier>, strict: bool)
    requires P.Persistent !in tiers && DurableOnDisk(s.entries)
    ensures DurableOnDisk(RemoveTiers(cfg, s, oid, tiers, strict).state.entries)
    decreases |tiers|
  {
    hide RemovePlacement, DurableOnDisk;
    if tiers != [] {
      assert tiers[0] in tiers && forall t :: t in tiers[1..] ==> t in tiers;
      TakeKeepsDurable(cfg, s, oid, tiers[0]);
      StripKeepsDurable(cfg, RemovePlacement(cfg, s, oid, tiers[0]).state, oid, tiers[1..], strict);
    }
  }

  lemma EnsureKeepsDurable(cfg: Config, r: Rules, a: Registry, m: Registry, s: State, oid: Digest, t: Tier)
    requires Serves(cfg, r) && StateOk(r, a, m, s) && DurableOnDisk(s.entries)
    ensures DurableOnDisk(Ensure(cfg, s, oid, t).state.entries)
  {
    hide Serves, StateOk, AddPlacement, Materialize, DurableOnDisk, HasTier;
    EntryKeys(r, a, m, s);
    if oid in s.entries && !HasTier(s.entries[oid], t) {
      MaterializeYieldsPayload(cfg, r, a, m, s, oid);
      AddKeepsDurable(cfg, r, a, m, s, oid, t);
    }
  }

  lemma RestoreKeepsDurable(cfg: Config, r: Rules, a: Registry, m: Registry, s: State, oid: Digest, t: Tier, now: u64)
    requires Serves(cfg, r) && StateOk(r, a, m, s) && DurableOnDisk(s.entries)
    ensures DurableOnDisk(Restore(cfg, s, oid, t, now).state.entries)
  {
    hide Serves, StateOk, AddPlacement, Materialize, EnforceCapacity, DurableOnDisk, HasTier;
    EntryKeys(r, a, m, s);
    EnforceCapacityIsIdle(cfg, r, a, m, s, now);
    if oid in s.entries && !HasTier(s.entries[oid], t) {
      MaterializeYieldsPayload(cfg, r, a, m, s, oid);
      AddKeepsDurable(cfg, r, a, m, s, oid, t);
      KeptAddPlacement(cfg, r, a, m, s, oid, t);
      var x := AddPlacement(cfg, s, oid, t, a[oid].payload);
      KeptState(r, a, m, s, x.state, x.ops, {});
      EnforceCapacityIsIdle(cfg, r, a, DescribedAfter(m, a, x.ops), x.state, now);
    }
  }

  lemma DemoteKeepsDurable(cfg: Config, r: Rules, a: Registry, m: Registry, s: State, oid: Digest, from: Tier)
    requires Serves(cfg, r) && StateOk(r, a, m, s) && DurableOnDisk(s.entries)
    ensures DurableOnDisk(Demote(cfg, s, oid, from).state.entries)
  {
    hide Serves, StateOk, Ensure, RemovePlacement, DurableOnDisk, HasTier;
    if NextLower(from).Ok? {
      EnsureKeepsDurable(cfg, r, a, m, s, oid, NextLower(from).value);
      TakeKeepsDurable(cfg, Ensure(cfg, s, oid, NextLower(from).value).state, oid, from);
    }
  }

  lemma PersistKeepsDurable(cfg: Config, r: Rules, a: Registry, m: Registry, s: State, oid: Digest)
    requires Serves(cfg, r) && StateOk(r, a, m, s) && DurableOnDisk(s.entries)
    ensures DurableOnDisk(Persist(cfg, s, oid).state.entries)
  {
    hide Serves, StateOk, Ensure, Kept;
    var x := Ensure(cfg, s, oid, P.Persistent);
    EnsureKeepsDurable(cfg, r, a, m, s, oid, P.Persistent);
    KeptEnsure(cfg, r, a, m, s, oid, P.Persistent);
    if x.result.Ok? {
      NotOnDisk(x.state.entries[oid]);
    }
  }

  lemma EvictKeepsDurable(cfg: Config, s: State, oid: Digest)
    requires DurableOnDisk(s.entries)
    ensures DurableOnDisk(Evict(cfg, s, oid).state.entries)
  {
    hide RemoveTiers, DurableOnDisk;
    if oid in s.entries {
      var tiers := Tiers(s.entries[oid].placements);
      VolatileMembers(tiers, P.Persistent);
      StripKeepsDurable(cfg, s, oid, Volatile(tiers), true);
    }
  }

  // ---- Registration ------------------------------------------------------------------------

  lemma RoomKeepsDurable(cfg: Config, r: Rules, a: Registry, m: Registry, s: State, charge: nat, now: u64)
    requires Serves(cfg, r) && StateOk(r, a, m, s) && DurableOnDisk(s.entries)
    ensures DurableOnDisk(WithRoom(cfg, s, charge, now).entries)
  {
    hide Serves, StateOk, EvictToFree, EvictionList, DistinctTiers;
    forall oid | oid in s.entries
      ensures DistinctTiers(s.entries[oid].placements)
    {
      DistinctOf(r, a, m, s, oid);
    }
    var k := E.MakingRoom(cfg, s, charge, now);
    RoomMade(cfg, r, a, m, s, charge, now);
    KeptState(r, a, m, s, WithRoom(cfg, s, charge, now), [], {});
    EntryKeys(r, a, m, s);
    EntryKeys(r, a, m, WithRoom(cfg, s, charge, now));
  }

  lemma InsertedDurable(cfg: Config, s: State, address: Address, k: CompatKey, payload: Bytes, charge: nat, now: u64)
    requires CheckPayload(cfg, k, payload).Ok? && Inside(payload, CheckPayload(cfg, k, payload).value.0)
    requires s.host.used + charge <= U64_MAX && DurableOnDisk(s.entries)
    ensures DurableOnDisk(Inserted(cfg, s, address, k, payload, charge, now).entries)
  {
    hide CheckPayload, AcquireAll;
  }

  lemma RegisterKeepsDurable(cfg: Config, r: Rules, a: Registry, m: Registry, s: State,
                             address: Address, k: CompatKey, payload: Bytes, now: u64)
    requires Serves(cfg, r) && StateOk(r, a, m, s) && DurableOnDisk(s.entries)
    requires OpOk(cfg, r, DoRegister(address, k, payload), now)
    ensures DurableOnDisk(Register(cfg, s, address, k, payload, now).state.entries)
  {
    hide Serves, StateOk, WithRoom, Register, CheckPayload, DurableOnDisk, Charged;
    var charge := ChargeFor(cfg, s, k, payload);
    RoomKeepsDurable(cfg, r, a, m, s, charge, now);
    if Register(cfg, s, address, k, payload, now).result.Ok? {
      RegistrationStoresAfterRoom(cfg, r, a, m, s, address, k, payload, now);
      InsertedDurable(cfg, WithRoom(cfg, s, charge, now), address, k, payload, charge, now);
    } else {
      RegistrationRefused(cfg, r, a, m, s, address, k, payload, now);
    }
  }

  // ---- Deletion ----------------------------------------------------------------------------

  /** The host placement at `j` cannot be given back to the account. */
  predicate Stuck(s: State, ps: seq<Placement>, j: nat)
    requires j < |ps|
  {
    ps[j].InHost? && !ReleaseAll(s.arena, s.host, ps[j].refs).2
  }

  /** What removing the first placement of an entry does. */
  lemma RemoveFirst(cfg: Config, r: Rules, a: Registry, m: Registry, s: State, oid: Digest)
    requires Serves(cfg, r) && StateOk(r, a, m, s) && oid in s.entries && s.entries[oid].placements != []
    ensures var ps := s.entries[oid].placements; var y := RemovePlacement(cfg, s, oid, TierOf(ps[0]));
      && y.state.entries == WithPlacements(s.entries, oid, ps[1..])
      && (y.result.Ok? <==> !Stuck(s, ps, 0))
      && (!ps[0].InHost? ==> y.state.arena == s.arena && y.state.host == s.host)
  {
    hide Serves, StateOk, ReleaseAll, DropBlocks, ApplyAll, Usable;
    var ps := s.entries[oid].placements;
    EntryFacts(cfg, r, a, m, s, oid);
    assert PlacementOk(r.hasStore, s.backends.Keys, a[oid], s.entries[oid].blocks, ps[0]);
    assert IndexOf(ps, TierOf(ps[0])) == 0 && Without(ps, 0) == ps[1..];
  }

  /**
   * Removing all placements of an entry goes through them in order; it stops exactly at a host placement that cannot
   * be given back, which is gone by then together with all those before it.
   */
  lemma {:induction false} RemoveAllOutcome(cfg: Config, r: Rules, a: Registry, m: Registry, s: State, oid: Digest)
    requires Serves(cfg, r) && StateOk(r, a, m, s) && oid in s.entries
    ensures var ps := s.entries[oid].placements; var x := RemoveTiers(cfg, s, oid, Tiers(ps), true);
      && (x.result.Ok? ==> forall j :: 0 <= j < |ps| ==> !Stuck(s, ps, j))
      && (x.result.Err? ==>
         exists j :: 0 <= j < |ps| && Stuck(s, ps, j) && x.state.entries == WithPlacements(s.entries, oid, ps[j + 1..]))
    decreases |s.entries[oid].placements|
  {
    hide Serves, StateOk, RemovePlacement, ReleaseAll, DistinctTiers;
    var ps := s.entries[oid].placements;
    if ps != [] {
      var t := TierOf(ps[0]);
      var y := RemovePlacement(cfg, s, oid, t);
      RemoveFirst(cfg, r, a, m, s, oid);
      KeptRemovePlacement(cfg, r, a, m, s, oid, t);
      KeptState(r, a, m, s, y.state, y.ops, if t == P.Persistent then {oid} else {});
      if y.result.Err? {
        assert Stuck(s, ps, 0);
      } else {
        RemoveAllOutcome(cfg, r, a, DescribedAfter(m, a, y.ops), y.state, oid);
        DistinctOf(r, a, m, s, oid);
        RestStuck(s, y.state, ps);
        var x := RemoveTiers(cfg, y.state, oid, Tiers(ps[1..]), true);
        if x.result.Err? {
          var j :| 0 <= j < |ps[1..]| && Stuck(y.state, ps[1..], j)
            && x.state.entries == WithPlacements(y.state.entries, oid, ps[1..][j + 1..]);
          assert Stuck(s, ps, j + 1) && ps[1..][j + 1..] == ps[j + 2..];
          SetTwice(s.entries, oid, ps[1..], ps[j + 2..]);
        }
      }
    }
  }

  /** Past the first placement, what is stuck is what was stuck before. */
  lemma RestStuck(s: State, s1: State, ps: seq<Placement>)
    requires ps != [] && DistinctTiers(ps) && !Stuck(s, ps, 0)
    requires !ps[0].InHost? ==> s1.arena == s.arena && s1.host == s.host
    ensures forall j :: 0 <= j < |ps[1..]| ==> Stuck(s1, ps[1..], j) == Stuck(s, ps, j + 1)
    ensures forall j :: 1 <= j < |ps| ==> Stuck(s, ps, j) == Stuck(s1, ps[1..], j - 1)
  {
    hide ReleaseAll;
    forall j | 0 <= j < |ps[1..]|
      ensures Stuck(s1, ps[1..], j) == Stuck(s, ps, j + 1)
    {
      assert TierOf(ps[0]) != TierOf(ps[j + 1]);
    }
  }

  /** Deleting the entry would leave it behind, durable and off disk. */
  predicate LosesDurable(s: State, oid: Digest) {
    && oid in s.entries && s.entries[oid].durable
    && var ps := s.entries[oid].placements;
       exists i, j :: 0 <= i < j < |ps| && ps[i] == OnDisk && Stuck(s, ps, j)
  }

  lemma OnlyOneStuck(s: State, ps: seq<Placement>, i: nat, j: nat)
    requires DistinctTiers(ps) && i < |ps| && j < |ps| && Stuck(s, ps, i) && Stuck(s, ps, j)
    ensures i == j
  {
    assert TierOf(ps[i]) == TierOf(ps[j]);
  }

  lemma OnDiskFrom(ps: seq<Placement>, j: nat)
    requires DistinctTiers(ps) && j < |ps| && OnDisk in ps && ps[j] != OnDisk
    ensures OnDisk in ps[j + 1..] <==> !exists i :: 0 <= i < j && ps[i] == OnDisk
  {
    var d :| 0 <= d < |ps| && ps[d] == OnDisk;
    if d > j {
      assert ps[j + 1..][d - j - 1] == OnDisk;
    }
    assert forall i :: 0 <= i < |ps| && TierOf(ps[i]) == TierOf(ps[d]) ==> i == d;
  }

  /**
   * "Durable implies on disk" survives a deletion if and only if it is not the case that the entry is durable and has a
   * host placement, after its storage placement, whose memory the account cannot take back. Whatever the tiers and
   * their order.
   */
  lemma DeleteKeepsDurableIff(cfg: Config, r: Rules, a: Registry, m: Registry, s: State, oid: Digest)
    requires Serves(cfg, r) && StateOk(r, a, m, s) && DurableOnDisk(s.entries)
    ensures DurableOnDisk(Delete(cfg, s, oid).state.entries) <==> !LosesDurable(s, oid)
  {
    hide Serves, StateOk, RemoveTiers, ReleaseAll, ApplyAll, DistinctTiers, Stuck;
    if oid in s.entries {
      var ps := s.entries[oid].placements;
      var x := RemoveTiers(cfg, s, oid, Tiers(ps), true);
      RemoveAllOutcome(cfg, r, a, m, s, oid);
      DistinctOf(r, a, m, s, oid);
      if x.result.Ok? {
        RemoveTiersShape(cfg, s, oid, Tiers(ps), true);
      } else {
        var j :| 0 <= j < |ps| && Stuck(s, ps, j) && x.state.entries == WithPlacements(s.entries, oid, ps[j + 1..]);
        StuckAt(s, oid, j);
      }
    }
  }

  lemma StuckAt(s: State, oid: Digest, j: nat)
    requires oid in s.entries && DurableOnDisk(s.entries) && DistinctTiers(s.entries[oid].placements)
    requires j < |s.entries[oid].placements| && Stuck(s, s.entries[oid].placements, j)
    ensures DurableOnDisk(WithPlacements(s.entries, oid, s.entries[oid].placements[j + 1..])) <==> !LosesDurable(s, oid)
  {
    hide ReleaseAll, DistinctTiers;
    var e, ps := s.entries[oid], s.entries[oid].placements;
    var after := WithPlacements(s.entries, oid, ps[j + 1..]);
    assert oid in after && after[oid].durable == e.durable && after[oid].placements == ps[j + 1..];
    assert forall o :: o in after && o != oid ==> after[o] == s.entries[o];
    if e.durable {
      OnDiskFrom(ps, j);
      if LosesDurable(s, oid) {
        var i, l :| 0 <= i < l < |ps| && ps[i] == OnDisk && Stuck(s, ps, l);
        OnlyOneStuck(s, ps, j, l);
      }
    }
  }

  // ---- One operation, then whole runs ------------------------------------------------------

  /** The operation is a deletion that would leave its object durable and off disk. */
  predicate BreaksDurability(s: State, op: Op) {
    op.DoDelete? && LosesDurable(s, op.oid)
  }

  /** Every operation keeps durable entries on disk, if and only if it is not such a deletion. */
  lemma DurableStepIff(cfg: Config, r: Rules, a: Registry, m: Registry, s: State, op: Op, now: u64)
    requires Serves(cfg, r) && StateOk(r, a, m, s) && OpOk(cfg, r, op, now) && DurableOnDisk(s.entries)
    ensures DurableOnDisk(Step(cfg, s, op, now).state.entries) <==> !BreaksDurability(s, op)
  {
    hide Serves, StateOk, Register, Restore, Demote, Persist, Evict, Delete, OpOk, LosesDurable;
    match op
    case DoRegister(address, k, payload) => RegisterKeepsDurable(cfg, r, a, m, s, address, k, payload, now);
    case DoLookup(address, k) =>
    case DoRestore(oid, t) => RestoreKeepsDurable(cfg, r, a, m, s, oid, t, now);
    case DoPromote(oid, t) => RestoreKeepsDurable(cfg, r, a, m, s, oid, t, now);
    case DoDemote(oid, t) => DemoteKeepsDurable(cfg, r, a, m, s, oid, t);
    case DoPersist(oid) => PersistKeepsDurable(cfg, r, a, m, s, oid);
    case DoEvict(oid) => EvictKeepsDurable(cfg, s, oid);
    case DoDelete(oid) => DeleteKeepsDurableIff(cfg, r, a, m, s, oid);
  }

  lemma OpenedDurable(cfg: Config, d: Disk, listing: seq<Digest>, hostCapacity: u64, storageCapacity: u64,
                      backends: map<BackendId, Backend>, now: u64)
    ensures DurableOnDisk(Open(cfg, d, listing, hostCapacity, storageCapacity, backends, now).entries)
  {
    hide Open;
    var s := Open(cfg, d, listing, hostCapacity, storageCapacity, backends, now);
    forall oid | oid in s.entries
      ensures OnDisk in s.entries[oid].placements
    {
      OpenedEntryPlaced(cfg, d, listing, hostCapacity, storageCapacity, backends, now, oid);
    }
  }

  /** No completed operation of the run breaks durability. */
  ghost predicate DeletesClean(cfg: Config, r: Rules, w: World, evs: seq<Event>)
    requires RunOk(cfg, r, w, evs)
    decreases |evs|
  {
    evs != [] ==>
      && (evs[0].Run? ==> !BreaksDurability(w.s, evs[0].op))
      && DeletesClean(cfg, r, Next(cfg, r, w, evs[0]), evs[1..])
  }

  lemma DurableNext(cfg: Config, r: Rules, w: World, ev: Event)
    requires Serves(cfg, r) && WorldOk(r, w) && EventOk(cfg, r, w, ev) && DurableOnDisk(w.s.entries)
    ensures DurableOnDisk(Next(cfg, r, w, ev).s.entries) <==> !(ev.Run? && BreaksDurability(w.s, ev.op))
  {
    hide Serves, StateOk, DurableOnDisk, Step, OpOk, Open, BreaksDurability;
    if ev.Run? {
      DurableStepIff(cfg, r, w.a, w.m, w.s, ev.op, ev.now);
    } else {
      OpenedDurable(cfg, ev.image, ev.listing, ev.hostCapacity, ev.storageCapacity, ev.backends, ev.reopenedAt);
    }
  }

  /** Over any run, crashes included, durable entries are on disk unless some completed deletion broke it. */
  lemma {:induction false} DurableRun(cfg: Config, r: Rules, w: World, evs: seq<Event>)
    requires Serves(cfg, r) && WorldOk(r, w) && RunOk(cfg, r, w, evs) && DurableOnDisk(w.s.entries)
    requires DeletesClean(cfg, r, w, evs)
    ensures DurableOnDisk(After(cfg, r, w, evs).s.entries)
    decreases |evs|
  {
    hide Serves, WorldOk, EventOk, Next, DurableOnDisk, BreaksDurability;
    if evs != [] {
      NextKeeps(cfg, r, w, evs[0]);
      DurableNext(cfg, r, w, evs[0]);
      DurableRun(cfg, r, Next(cfg, r, w, evs[0]), evs[1..]);
    }
  }
}

/** Where a successful operation leaves its object, tier by tier, and that it touches no other object. */
module CacheEffects {
  import opened Prelude
  import opened Storage
  import opened Accounting
  import opened BlockArena
  import opened Compat
  import opened CacheSpec
  import opened DiskSafety
  import opened CacheInvariant
  import opened CacheOperations
  import opened CacheRuns
  import opened CacheAccounting
  import X = CacheExactness
  import E = CacheEviction
  import P = Planner

  ghost function TierSet(ps: seq<Placement>): set<Tier> {
    set p | p in ps :: TierOf(p)
  }

  /** Only the placements of one entry changed, and they are now in exactly these tiers. */
  ghost predicate NowIn(entries: map<Digest, Entry>, after: map<Digest, Entry>, oid: Digest, tiers: set<Tier>) {
    oid in entries && oid in after && after == WithPlacements(entries, oid, after[oid].placements)
      && TierSet(after[oid].placements) == tiers
  }

  /** The tiers an operation leaves its object in, given those it was in. */
  function TiersAfter(op: Op, tiers: set<Tier>): set<Tier> {
    match op
    case DoRestore(_, t) => tiers + {t}
    case DoPromote(_, t) => tiers + {t}
    case DoDemote(_, from) => tiers - {from} + {if from.Accelerator? then P.Host else P.Persistent}
    case DoPersist(_) => tiers + {P.Persistent}
    case DoEvict(_) => tiers * {P.Persistent}
    case _ => tiers
  }

  lemma HasTierIsMember(e: Entry, t: Tier)
    ensures HasTier(e, t) <==> t in TierSet(e.placements)
  {
    var i := IndexOf(e.placements, t);
    if i < |e.placements| {
      assert e.placements[i] in e.placements;
    }
    if t in TierSet(e.placements) {
      var p :| p in e.placements && TierOf(p) == t;
      var j :| 0 <= j < |e.placements| && e.placements[j] == p;
      assert i <= j;
    }
  }

  lemma Unchanged(entries: map<Digest, Entry>, oid: Digest)
    requires oid in entries
    ensures NowIn(entries, entries, oid, TierSet(entries[oid].placements))
  {
    SetTwice(entries, oid, [], []);
  }

  lemma PushedIn(s: State, oid: Digest, p: Placement)
    requires oid in s.entries
    ensures NowIn(s.entries, Push(s, oid, p).entries, oid, TierSet(s.entries[oid].placements) + {TierOf(p)})
  {
    var ps := s.entries[oid].placements;
    assert forall q :: q in ps + [p] <==> q in ps || q == p;
    assert TierSet(ps + [p]) == TierSet(ps) + {TierOf(p)};
  }

  lemma AddedIn(cfg: Config, r: Rules, a: Registry, m: Registry, s: State, oid: Digest, t: Tier)
    requires Serves(cfg, r) && StateOk(r, a, m, s) && oid in s.entries && oid in a && !HasTier(s.entries[oid], t)
    ensures var x := AddPlacement(cfg, s, oid, t, a[oid].payload);
      if x.result.Ok? then NowIn(s.entries, x.state.entries, oid, TierSet(s.entries[oid].placements) + {t})
        else x.state == s
  {
    hide Serves, StateOk, AddPlacement, NowIn, HasTier, Push;
    KeptAddPlacement(cfg, r, a, m, s, oid, t);
    var x := AddPlacement(cfg, s, oid, t, a[oid].payload);
    if x.result.Ok? {
      var p :| TierOf(p) == t && x.state.entries == Push(s, oid, p).entries;
      PushedIn(s, oid, p);
    }
  }

  lemma EnsuredIn(cfg: Config, r: Rules, a: Registry, m: Registry, s: State, oid: Digest, t: Tier)
    requires Serves(cfg, r) && StateOk(r, a, m, s)
    ensures var x := Ensure(cfg, s, oid, t);
      if x.result.Ok? then
        oid in s.entries && NowIn(s.entries, x.state.entries, oid, TierSet(s.entries[oid].placements) + {t})
          else x.state == s
  {
    hide Serves, StateOk, AddPlacement, NowIn, HasTier, Materialize;
    EntryKeys(r, a, m, s);
    if oid in s.entries {
      HasTierIsMember(s.entries[oid], t);
      Unchanged(s.entries, oid);
      MaterializeYieldsPayload(cfg, r, a, m, s, oid);
      if !HasTier(s.entries[oid], t) {
        AddedIn(cfg, r, a, m, s, oid, t);
      } else {
        assert TierSet(s.entries[oid].placements) + {t} == TierSet(s.entries[oid].placements);
      }
    }
  }

  lemma RestoredIn(cfg: Config, r: Rules, a: Registry, m: Registry, s: State, oid: Digest, t: Tier, now: u64)
    requires Serves(cfg, r) && StateOk(r, a, m, s)
    ensures var x := Restore(cfg, s, oid, t, now);
      if x.result.Ok? then
        oid in s.entries && NowIn(s.entries, x.state.entries, oid, TierSet(s.entries[oid].placements) + {t})
          else x.state == s
  {
    hide Serves, StateOk, AddPlacement, NowIn, HasTier, Materialize, EnforceCapacity, TierSet;
    EntryKeys(r, a, m, s);
    if oid in s.entries {
      HasTierIsMember(s.entries[oid], t);
      Unchanged(s.entries, oid);
      MaterializeYieldsPayload(cfg, r, a, m, s, oid);
      EnforceCapacityIsIdle(cfg, r, a, m, s, now);
      if !HasTier(s.entries[oid], t) {
        AddedIn(cfg, r, a, m, s, oid, t);
        KeptAddPlacement(cfg, r, a, m, s, oid, t);
        var x := AddPlacement(cfg, s, oid, t, a[oid].payload);
        KeptState(r, a, m, s, x.state, x.ops, {});
        EnforceCapacityIsIdle(cfg, r, a, DescribedAfter(m, a, x.ops), x.state, now);
      } else {
        assert TierSet(s.entries[oid].placements) + {t} == TierSet(s.entries[oid].placements);
      }
    }
  }

  lemma PromotedIn(cfg: Config, r: Rules, a: Registry, m: Registry, s: State, oid: Digest, t: Tier, now: u64)
    requires Serves(cfg, r) && StateOk(r, a, m, s)
    ensures var y := Promote(cfg, s, oid, t, now);
      if y.result.Ok? then
        oid in s.entries && NowIn(s.entries, y.state.entries, oid, TierSet(s.entries[oid].placements) + {t})
          else y.state == s
  {
    hide Serves, StateOk, Restore, NowIn, HasTier, TierSet;
    RestoredIn(cfg, r, a, m, s, oid, t, now);
    if oid in s.entries {
      HasTierIsMember(s.entries[oid], t);
      Unchanged(s.entries, oid);
      if HasTier(s.entries[oid], t) {
        assert TierSet(s.entries[oid].placements) + {t} == TierSet(s.entries[oid].placements);
      }
    }
  }

  lemma TakenFrom(cfg: Config, s: State, oid: Digest, t: Tier)
    requires oid in s.entries && DistinctTiers(s.entries[oid].placements) && HasTier(s.entries[oid], t)
    ensures NowIn(s.entries, RemovePlacement(cfg, s, oid, t).state.entries, oid,
      TierSet(s.entries[oid].placements) - {t})
  {
    hide RemovePlacement, DistinctTiers;
    var ps := s.entries[oid].placements;
    var i := IndexOf(ps, t);
    RemovePlacementShape(cfg, s, oid, t);
    WithoutDistinct(ps, i);
    assert TierSet(Without(ps, i)) == TierSet(ps) - {t};
  }

  lemma ThenIn(a: map<Digest, Entry>, b: map<Digest, Entry>, c: map<Digest, Entry>, oid: Digest, x: set<Tier>,
               y: set<Tier>)
    requires NowIn(a, b, oid, x) && NowIn(b, c, oid, y)
    ensures NowIn(a, c, oid, y)
  {
    SetTwice(a, oid, b[oid].placements, c[oid].placements);
  }

  lemma DemotedTo(cfg: Config, r: Rules, a: Registry, m: Registry, s: State, oid: Digest, from: Tier)
    requires Serves(cfg, r) && StateOk(r, a, m, s) && Demote(cfg, s, oid, from).result.Ok?
    ensures oid in s.entries && NextLower(from).Ok? && from in TierSet(s.entries[oid].placements)
    ensures NowIn(s.entries, Demote(cfg, s, oid, from).state.entries, oid,
      TierSet(s.entries[oid].placements) - {from} + {NextLower(from).value})
  {
    hide Serves, StateOk, Ensure, RemovePlacement, NowIn, HasTier, DistinctTiers;
    var target := NextLower(from).value;
    var x := Ensure(cfg, s, oid, target);
    HasTierIsMember(s.entries[oid], from);
    EnsuredIn(cfg, r, a, m, s, oid, target);
    KeptEnsure(cfg, r, a, m, s, oid, target);
    KeptState(r, a, m, s, x.state, x.ops, {});
    var held := TierSet(s.entries[oid].placements);
    assert TierSet(x.state.entries[oid].placements) ==
      held + {target} by { InTiers(s.entries, x.state.entries, oid, held + {target}); }
    HasTierIsMember(x.state.entries[oid], from);
    DistinctOf(r, a, DescribedAfter(m, a, x.ops), x.state, oid);
    TakenFrom(cfg, x.state, oid, from);
    ThenIn(s.entries, x.state.entries, RemovePlacement(cfg, x.state, oid, from).state.entries, oid, held + {target},
      held + {target} - {from});
    assert held + {target} - {from} == held - {from} + {target};
  }

  lemma InTiers(entries: map<Digest, Entry>, after: map<Digest, Entry>, oid: Digest, tiers: set<Tier>)
    requires NowIn(entries, after, oid, tiers)
    ensures oid in after && TierSet(after[oid].placements) == tiers
  {
  }

  lemma EvictedTo(cfg: Config, r: Rules, a: Registry, m: Registry, s: State, oid: Digest)
    requires StateOk(r, a, m, s) && Evict(cfg, s, oid).result.Ok?
    ensures oid in s.entries
    ensures NowIn(s.entries, Evict(cfg, s, oid).state.entries, oid, TierSet(s.entries[oid].placements) * {P.Persistent})
  {
    hide StateOk, RemoveTiers, DistinctTiers, Stripped;
    var ps := s.entries[oid].placements;
    var tiers := Volatile(Tiers(ps));
    DistinctOf(r, a, m, s, oid);
    RemoveTiersShape(cfg, s, oid, tiers, true);
    E.StrippedVolatile(ps);
    assert forall p: Placement :: TierOf(p) == P.Persistent <==> p == OnDisk;
    assert TierSet(Stripped(ps, tiers)) == TierSet(ps) * {P.Persistent};
  }

  /**
   * A restore, promotion, demotion, persist or eviction that succeeds leaves its object in exactly the expected tiers
   * and changes nothing else of it but the durable mark, and nothing of any other object.
   */
  lemma OperationPlaces(cfg: Config, r: Rules, a: Registry, m: Registry, s: State, op: Op, now: u64)
    requires Serves(cfg, r) && StateOk(r, a, m, s) && Step(cfg, s, op, now).result.Ok?
    requires op.DoRestore? || op.DoPromote? || op.DoDemote? || op.DoPersist? || op.DoEvict?
    ensures op.oid in s.entries && op.oid in Step(cfg, s, op, now).state.entries
    ensures var after := Step(cfg, s, op, now).state.entries; var e := s.entries[op.oid];
      && TierSet(after[op.oid].placements) == TiersAfter(op, TierSet(e.placements))
      && after[op.oid] == e.(placements := after[op.oid].placements, durable := e.durable || op.DoPersist?)
      && after == s.entries[op.oid := after[op.oid]]
  {
    hide Serves, StateOk, Restore, Promote, Demote, Ensure, Evict;
    match op
    case DoRestore(oid, t) => RestoredIn(cfg, r, a, m, s, oid, t, now);
    case DoPromote(oid, t) => PromotedIn(cfg, r, a, m, s, oid, t, now);
    case DoDemote(oid, from) => DemotedTo(cfg, r, a, m, s, oid, from);
    case DoPersist(oid) => EnsuredIn(cfg, r, a, m, s, oid, P.Persistent);
    case DoEvict(oid) => EvictedTo(cfg, r, a, m, s, oid);
  }

  /** A successful deletion removes its object and touches no other. */
  lemma DeletionRemoves(cfg: Config, r: Rules, a: Registry, m: Registry, s: State, oid: Digest)
    requires StateOk(r, a, m, s) && Delete(cfg, s, oid).result.Ok?
    ensures oid in s.entries && Delete(cfg, s, oid).state.entries == s.entries - {oid}
  {
    hide StateOk, RemoveTiers, DistinctTiers, Stripped, ApplyAll;
    DistinctOf(r, a, m, s, oid);
    RemoveTiersShape(cfg, s, oid, Tiers(s.entries[oid].placements), true);
  }

  lemma OnlyTier(p: Placement)
    ensures TierSet([p]) == {TierOf(p)}
  {
    assert forall q :: q in [p] <==> q == p;
  }

  /** A successful registration places a new, non-durable object in host memory. */
  lemma RegistrationPlaces(cfg: Config, r: Rules, a: Registry, m: Registry, s: State, address: Address, k: CompatKey,
                           payload: Bytes, now: u64)
    requires Serves(cfg, r) && StateOk(r, a, m, s) && OpOk(cfg, r, DoRegister(address, k, payload), now)
    requires Register(cfg, s, address, k, payload, now).result.Ok?
    ensures var oid := cfg.name(address); var s1 := WithRoom(cfg, s, ChargeFor(cfg, s, k, payload), now);
      var after := Register(cfg, s, address, k, payload, now).state.entries;
      && oid !in s1.entries && oid in after && after == s1.entries[oid := after[oid]]
      && TierSet(after[oid].placements) == {P.Host} && !after[oid].durable && after[oid].reuseCount == 0
      && after[oid].createdNs == now && after[oid].lastUseNs == now
      && after[oid].address == address && after[oid].compat == k && after[oid].byteLen == |payload|
  {
    hide Serves, StateOk, Register, WithRoom, CheckPayload, AcquireAll;
    RegistrationStoresAfterRoom(cfg, r, a, m, s, address, k, payload, now);
    var after := Register(cfg, s, address, k, payload, now).state.entries;
    var e := after[cfg.name(address)];
    assert e.placements == [InHost(BlocksFor(cfg, k, payload))];
    OnlyTier(InHost(BlocksFor(cfg, k, payload)));
  }

  // ---- When operations succeed -------------------------------------------------------------

  /** There is room for a copy of the entry in the tier. */
  predicate RoomIn(cfg: Config, s: State, e: Entry, t: Tier) {
    match t
    case Host => Charged(s.arena.blocks.Keys, e.blocks) <= Free(s.host)
    case Accelerator(b) => b in s.backends && s.backends[b].inUse + e.byteLen <= s.backends[b].capacity
    case Persistent => cfg.hasStore && Charged(s.diskRefs.Keys, e.blocks) <= Free(s.storage)
  }

  /** How a tier refuses a copy for which it has no room. */
  function Refusal(cfg: Config, t: Tier): Error {
    match t
    case Host => AdmissionRejected
    case Accelerator(_) => Error.Backend
    case Persistent => if cfg.hasStore then AdmissionRejected else Error.Persistence
  }

  lemma DiskOutcome(cfg: Config, r: Rules, a: Registry, m: Registry, s: State, oid: Digest)
    requires Serves(cfg, r) && StateOk(r, a, m, s) && oid in s.entries && oid in a
    ensures |a[oid].payload| < TWO_64
    ensures AddDisk(cfg, s, oid, a[oid].payload).result ==
      if RoomIn(cfg, s, s.entries[oid], P.Persistent) then Ok(()) else Err(Refusal(cfg, P.Persistent))
  {
    hide Serves, EntriesOk, Linked, DiskSound, HostOk, StoreOk, DeviceOk, Usable, AddDisk, PutBlocks, DistinctTiers;
    hide PlacementOk, Charged;
    EntryFacts(cfg, r, a, m, s, oid);
    UsablePositive(cfg, r, oid, a[oid]);
    if cfg.hasStore {
      PutUsable(cfg, r, a, m, s, oid);
      AddDiskUnfolds(cfg, r, s, oid, a[oid]);
    } else {
      AddDiskRefused(cfg, s, oid, a[oid].payload);
    }
  }

  lemma HostRefuses(cfg: Config, r: Rules, s: State, oid: Digest, obj: Object)
    requires Usable(cfg, r, oid, obj) && oid in s.entries && Charged(s.arena.blocks.Keys, r.blocks(obj)) > Free(s.host)
    ensures AddHost(cfg, s, oid, obj.payload).result == Err(AdmissionRejected)
  {
    hide Charged, Chunk, Accepts;
  }

  /** Adding a placement fails for lack of room only, and says so in the way of the tier. */
  lemma AddOutcome(cfg: Config, r: Rules, a: Registry, m: Registry, s: State, oid: Digest, t: Tier)
    requires Serves(cfg, r) && StateOk(r, a, m, s) && oid in s.entries && oid in a
    ensures AddPlacement(cfg, s, oid, t, a[oid].payload).result ==
      if RoomIn(cfg, s, s.entries[oid], t) then Ok(()) else Err(Refusal(cfg, t))
  {
    hide Serves, StateOk, Usable, AddHost, AddDisk, DistinctTiers, PlacementOk, Charged;
    EntryFacts(cfg, r, a, m, s, oid);
    UsablePositive(cfg, r, oid, a[oid]);
    UsableLength(cfg, r, oid, a[oid]);
    match t
    case Host =>
      ArenaFacts(r, a, m, s);
      X.AddHostShape(cfg, r, s, oid, a[oid]);
      if !RoomIn(cfg, s, s.entries[oid], t) {
        HostRefuses(cfg, r, s, oid, a[oid]);
      } else {
        assert AddHost(cfg, s, oid, a[oid].payload).result.value == ();
      }
    case Accelerator(b) =>
    case Persistent =>
      DiskOutcome(cfg, r, a, m, s, oid);
  }

  /**
   * A restore finds the registered bytes if the object is registered, held by some tier, and the destination holds it
   * already or has room for it. Each other case has its own error; in particular no entry is ever quarantined.
   */
  lemma RestoreOutcome(cfg: Config, r: Rules, a: Registry, m: Registry, s: State, oid: Digest, t: Tier, now: u64)
    requires Serves(cfg, r) && StateOk(r, a, m, s)
    ensures Restore(cfg, s, oid, t, now).result ==
      if oid !in a then Err(NotFound)
      else if s.entries[oid].placements == [] then Err(Error.Reconstruct)
      else if HasTier(s.entries[oid], t) || RoomIn(cfg, s, s.entries[oid], t) then Ok(a[oid].payload)
      else Err(Refusal(cfg, t))
  {
    hide Serves, StateOk, Materialize, AddPlacement, HasTier, RoomIn, EnforceCapacity;
    EntryKeys(r, a, m, s);
    if oid in s.entries {
      NeverQuarantined(cfg, r, a, m, s, oid);
      MaterializeYieldsPayload(cfg, r, a, m, s, oid);
      AddOutcome(cfg, r, a, m, s, oid, t);
    }
  }

  lemma NeverQuarantined(cfg: Config, r: Rules, a: Registry, m: Registry, s: State, oid: Digest)
    requires Serves(cfg, r) && StateOk(r, a, m, s) && oid in s.entries
    ensures !s.entries[oid].quarantined
  {
    hide Serves, StateOk, Usable, DistinctTiers, PlacementOk;
    EntryFacts(cfg, r, a, m, s, oid);
  }

  lemma HeldIsPlaced(e: Entry, t: Tier)
    requires HasTier(e, t)
    ensures e.placements != []
  {
  }

  /** A promotion succeeds if the tier holds the object already, or some tier does and there is room in this one. */
  lemma PromoteOutcome(cfg: Config, r: Rules, a: Registry, m: Registry, s: State, oid: Digest, t: Tier, now: u64)
    requires Serves(cfg, r) && StateOk(r, a, m, s)
    ensures Promote(cfg, s, oid, t, now).result ==
      if oid !in a then Err(NotFound)
      else if HasTier(s.entries[oid], t) then Ok(())
      else if s.entries[oid].placements == [] then Err(Error.Reconstruct)
      else if RoomIn(cfg, s, s.entries[oid], t) then Ok(()) else Err(Refusal(cfg, t))
  {
    hide Serves, StateOk, Restore, HasTier, RoomIn;
    EntryKeys(r, a, m, s);
    RestoreOutcome(cfg, r, a, m, s, oid, t, now);
  }

  /** Making sure of a copy in a tier succeeds under the same conditions. */
  lemma EnsureOutcome(cfg: Config, r: Rules, a: Registry, m: Registry, s: State, oid: Digest, t: Tier)
    requires Serves(cfg, r) && StateOk(r, a, m, s)
    ensures Ensure(cfg, s, oid, t).result ==
      if oid !in a then Err(NotFound)
      else if HasTier(s.entries[oid], t) then Ok(())
      else if s.entries[oid].placements == [] then Err(Error.Reconstruct)
      else if RoomIn(cfg, s, s.entries[oid], t) then Ok(()) else Err(Refusal(cfg, t))
  {
    hide Serves, StateOk, Materialize, AddPlacement, HasTier, RoomIn;
    EntryKeys(r, a, m, s);
    if oid in s.entries {
      MaterializeYieldsPayload(cfg, r, a, m, s, oid);
      AddOutcome(cfg, r, a, m, s, oid, t);
    }
  }

  /** A persist succeeds if the object is on disk already, or held somewhere with room for it on disk. */
  lemma PersistOutcome(cfg: Config, r: Rules, a: Registry, m: Registry, s: State, oid: Digest)
    requires Serves(cfg, r) && StateOk(r, a, m, s)
    ensures Persist(cfg, s, oid).result ==
      if oid !in a then Err(NotFound)
      else if HasTier(s.entries[oid], P.Persistent) then Ok(())
      else if s.entries[oid].placements == [] then Err(Error.Reconstruct)
      else if RoomIn(cfg, s, s.entries[oid], P.Persistent) then Ok(()) else Err(Refusal(cfg, P.Persistent))
  {
    hide Serves, StateOk, Ensure, HasTier, RoomIn;
    EnsureOutcome(cfg, r, a, m, s, oid, P.Persistent);
  }
}

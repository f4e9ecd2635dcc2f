/** What is persisted stays persisted: through every operation but its own deletion, and through every crash. */
module CacheSurvival {
  import opened Prelude
  import opened Compat
  import opened CacheSpec
  import opened DiskSafety
  import opened CacheInvariant
  import opened CacheKept
  import opened CacheOperations
  import opened CacheRuns
  import opened CacheCrashes
  import opened CacheAccounting
  import opened CacheManifests
  import P = Planner

  predicate Persists(s: State, oid: Digest) {
    oid in s.entries && OnDisk in s.entries[oid].placements
  }

  lemma StillPersists(s: State, s': State, gone: set<Digest>, oid: Digest)
    requires StillPersisted(s.entries, s'.entries, gone) && Persists(s, oid) && oid !in gone
    ensures Persists(s', oid)
  {
  }

  lemma RegisterSpares(cfg: Config, r: Rules, a: Registry, m: Registry, s: State, address: Address, k: CompatKey,
                       payload: Bytes, now: u64, oid: Digest)
    requires Serves(cfg, r) && StateOk(r, a, m, s) && OpOk(cfg, r, DoRegister(address, k, payload), now)
    requires Persists(s, oid)
    ensures Persists(Register(cfg, s, address, k, payload, now).state, oid)
  {
    hide Serves, StateOk, Register, CheckPayload, WithRoom;
    var s1 := WithRoom(cfg, s, ChargeFor(cfg, s, k, payload), now);
    RoomKept(cfg, r, a, m, s, ChargeFor(cfg, s, k, payload), now);
    StillPersists(s, s1, {}, oid);
    if Register(cfg, s, address, k, payload, now).result.Ok? {
      RegistrationStoresAfterRoom(cfg, r, a, m, s, address, k, payload, now);
    } else {
      RegistrationRefused(cfg, r, a, m, s, address, k, payload, now);
    }
  }

  /** Deleting another object spares this one, also when it stops half-way. */
  lemma DeleteSpares(cfg: Config, r: Rules, a: Registry, m: Registry, s: State, other: Digest, oid: Digest)
    requires Serves(cfg, r) && StateOk(r, a, m, s) && Persists(s, oid) && other != oid
    ensures Persists(Delete(cfg, s, other).state, oid)
  {
    hide Serves, StateOk, RemoveTiers, ApplyAll;
    if other in s.entries {
      var tiers := Tiers(s.entries[other].placements);
      KeptRemoveTiers(cfg, r, a, m, s, other, tiers, true);
      var gone := if P.Persistent in tiers then {other} else {};
      StillPersists(s, RemoveTiers(cfg, s, other, tiers, true).state, gone, oid);
    }
  }

  /** No completed operation but its own deletion takes an object off disk. */
  lemma StepSpares(cfg: Config, r: Rules, a: Registry, m: Registry, s: State, op: Op, now: u64, oid: Digest)
    requires Serves(cfg, r) && StateOk(r, a, m, s) && OpOk(cfg, r, op, now) && Persists(s, oid) && op != DoDelete(oid)
    ensures Persists(Step(cfg, s, op, now).state, oid)
  {
    hide Serves, StateOk, Register, Lookup, Restore, Promote, Demote, Persist, Evict, Delete, OpOk, Persists;
    match op
    case DoRegister(address, k, payload) =>
      RegisterSpares(cfg, r, a, m, s, address, k, payload, now, oid);
    case DoLookup(address, k) =>
      KeptLookup(cfg, r, a, m, s, address, k, now);
      StillPersists(s, Lookup(cfg, s, address, k, now).state, {}, oid);
    case DoRestore(o, t) =>
      KeptRestore(cfg, r, a, m, s, o, t, now);
      StillPersists(s, Restore(cfg, s, o, t, now).state, {}, oid);
    case DoPromote(o, t) =>
      KeptPromote(cfg, r, a, m, s, o, t, now);
      StillPersists(s, Promote(cfg, s, o, t, now).state, {}, oid);
    case DoDemote(o, t) =>
      KeptDemote(cfg, r, a, m, s, o, t);
      StillPersists(s, Demote(cfg, s, o, t).state, {}, oid);
    case DoPersist(o) =>
      KeptPersist(cfg, r, a, m, s, o);
      StillPersists(s, Persist(cfg, s, o).state, {}, oid);
    case DoEvict(o) =>
      KeptEvict(cfg, r, a, m, s, o);
      StillPersists(s, Evict(cfg, s, o).state, {}, oid);
    case DoDelete(o) =>
      DeleteSpares(cfg, r, a, m, s, o, oid);
  }

  predicate NeverDeletes(evs: seq<Event>, oid: Digest) {
    forall i :: 0 <= i < |evs| ==> evs[i].op != DoDelete(oid)
  }

  predicate NeverCrashes(evs: seq<Event>) {
    forall i :: 0 <= i < |evs| ==> evs[i].Run?
  }

  /** On disk, and registered as this object. */
  ghost predicate Holds(w: World, oid: Digest, obj: Object) {
    Persists(w.s, oid) && oid in w.a && w.a[oid] == obj
  }

  lemma NextSpares(cfg: Config, r: Rules, w: World, ev: Event, oid: Digest, obj: Object)
    requires Serves(cfg, r) && WorldOk(r, w) && EventOk(cfg, r, w, ev) && Holds(w, oid, obj) && ev.op != DoDelete(oid)
    requires cfg.hasStore && (ev.Run? || r.readable(obj))
    ensures Holds(Next(cfg, r, w, ev), oid, obj)
  {
    hide Serves, StateOk, Step, OpOk, Open;
    var w' := Next(cfg, r, w, ev);
    if ev.Run? {
      StepSpares(cfg, r, w.a, w.m, w.s, ev.op, ev.now, oid);
      StepRefines(cfg, r, w.a, w.m, w.s, ev.op, ev.now);
    } else {
      PersistedSurvives(cfg, r, w, ev, oid);
      NextKeeps(cfg, r, w, ev);
      EntryKeys(r, w'.a, w'.m, w'.s);
      OpenedEntryPlaced(cfg, ev.image, ev.listing, ev.hostCapacity, ev.storageCapacity, ev.backends, ev.reopenedAt,
        oid);
    }
  }

  /** Over any run, crashes at any point included, that does not begin to delete it. */
  lemma {:induction false} RunSpares(cfg: Config, r: Rules, w: World, evs: seq<Event>, oid: Digest, obj: Object)
    requires Serves(cfg, r) && WorldOk(r, w) && RunOk(cfg, r, w, evs) && Holds(w, oid, obj) && NeverDeletes(evs, oid)
    requires cfg.hasStore && (NeverCrashes(evs) || r.readable(obj))
    ensures Holds(After(cfg, r, w, evs), oid, obj)
    decreases |evs|
  {
    hide Serves, WorldOk, EventOk, Next, Holds;
    if evs != [] {
      NextSpares(cfg, r, w, evs[0], oid, obj);
      NextKeeps(cfg, r, w, evs[0]);
      assert forall i :: 0 <= i < |evs[1..]| ==> evs[1..][i] == evs[i + 1];
      RunSpares(cfg, r, Next(cfg, r, w, evs[0]), evs[1..], oid, obj);
    }
  }

  /** A persist that returns leaves its object on disk, in a cache that has a store. */
  lemma PersistHolds(cfg: Config, r: Rules, w: World, oid: Digest, now: u64)
    requires Serves(cfg, r) && WorldOk(r, w) && Persist(cfg, w.s, oid).result.Ok?
    ensures cfg.hasStore && oid in w.a && EventOk(cfg, r, w, Run(DoPersist(oid), now))
    ensures Holds(Next(cfg, r, w, Run(DoPersist(oid), now)), oid, w.a[oid])
  {
    hide Serves, StateOk, Persist;
    var w' := Next(cfg, r, w, Run(DoPersist(oid), now));
    KeptPersist(cfg, r, w.a, w.m, w.s, oid);
    NextKeeps(cfg, r, w, Run(DoPersist(oid), now));
    EntryKeys(r, w'.a, w'.m, w'.s);
    NotOnDisk(w'.s.entries[oid]);
    EntryFactsStore(cfg, r, w'.a, w'.m, w'.s, oid);
  }
}

/**
 * A node's cache behind the peer protocol. Serving a Store through the runtime is `Cluster.StoreLocally` on the
 * write-once map that the runtime refines; a copy that was evicted from memory shows up as unreadable, never as other
 * bytes.
 */
module NodeStore {
  import opened Prelude
  import opened Accounting
  import opened BlockArena
  import opened Manifests
  import opened CacheSpec
  import opened DiskSafety
  import opened CacheInvariant
  import opened CacheOperations
  import opened CacheRuns
  import opened CacheAccounting
  import opened Cluster
  import E = CacheEffects
  import O = CacheOutcomes
  import P = Planner

  lemma HexInjective()
    ensures forall a: Bytes, b: Bytes :: ToHex(a) == ToHex(b) ==> a == b
  {
    forall a: Bytes, b: Bytes | ToHex(a) == ToHex(b)
      ensures a == b
    {
      ParseToHex(a);
      ParseToHex(b);
    }
  }

  function CopyOf(obj: Object): Copy {
    Copy(obj.address, obj.compat, obj.payload)
  }

  /** The registered objects as the copies a node holds, under their hexadecimal names. */
  function Shelf(a: Registry): (s: LocalStore)
    ensures forall o :: o in a ==> ToHex(o) in s && s[ToHex(o)] == CopyOf(a[o])
    ensures forall id :: id in s ==> exists o :: o in a && id == ToHex(o)
  {
    HexInjective();
    map o | o in a :: ToHex(o) := CopyOf(a[o])
  }

  lemma ShelfHas(a: Registry, o: Digest)
    ensures ToHex(o) in Shelf(a) <==> o in a
  {
    HexInjective();
  }

  lemma ShelfAt(a: Registry, o: Digest, obj: Object, id: Bytes)
    requires o !in a
    ensures id in Shelf(a[o := obj]) <==> id in Shelf(a) || id == ToHex(o)
    ensures id == ToHex(o) ==> Shelf(a[o := obj])[id] == CopyOf(obj)
    ensures id in Shelf(a) ==> id != ToHex(o) && Shelf(a[o := obj])[id] == Shelf(a)[id]
  {
    hide Shelf, ToHex;
    var b := a[o := obj];
    ShelfHas(a, o);
    if id in Shelf(b) {
      var q :| q in b && id == ToHex(q);
      assert q != o ==> q in a;
    }
    if id in Shelf(a) {
      var q :| q in a && id == ToHex(q);
      assert q in b && b[q] == a[q];
    }
  }

  lemma ShelfInsert(a: Registry, o: Digest, obj: Object)
    requires o !in a
    ensures Shelf(a[o := obj]) == Shelf(a)[ToHex(o) := CopyOf(obj)]
  {
    hide Shelf, ToHex;
    var x, y := Shelf(a[o := obj]), Shelf(a)[ToHex(o) := CopyOf(obj)];
    forall id
      ensures (id in x <==> id in y) && (id in x ==> x[id] == y[id])
    {
      ShelfAt(a, o, obj, id);
    }
    assert x.Keys == y.Keys;
  }

  /** Serve a Store: register the copy, or compare it with the one that is there. */
  ghost function ServeStore(cfg: Config, s: State, copy: Copy, now: u64): (State, bool) {
    var oid := cfg.name(copy.address);
    var x := Register(cfg, s, copy.address, copy.compat, copy.bytes, now);
    if x.result.Ok? then (x.state, true)
    else if x.result.error != Exists || oid !in s.entries then (x.state, false)
    else if s.entries[oid].compatId != cfg.identify(copy.compat) then (s, false)
    else
      var y := Restore(cfg, s, oid, P.Host, now);
      (y.state, y.result == Ok(copy.bytes))
  }

  /** The names and identities of the protocol are those of the cache. */
  ghost predicate Matches(t: Setting, cfg: Config) {
    (forall a :: t.name(a) == ToHex(cfg.name(a))) && forall k :: t.identify(k) == cfg.identify(k)
  }

  lemma ExistsMeansThere(cfg: Config, s: State, copy: Copy, now: u64)
    ensures var x := Register(cfg, s, copy.address, copy.compat, copy.bytes, now);
      x.result == Err(Exists) && cfg.name(copy.address) in s.entries ==> x.state == s
  {
    hide CheckPayload, Admits, StoreBlocks, EvictToFree, EnforceCapacity, NewEntry, Charged;
  }

  /**
   * Serving a Store through the runtime keeps the invariant and does to the registered objects what `StoreLocally` does
   * to the node's copies, for some outcome of admission and of reading back.
   */
  lemma StoreIsLocal(cfg: Config, r: Rules, t: Setting, a: Registry, m: Registry, s: State, copy: Copy, now: u64)
    returns (a': Registry, m': Registry, luck: Luck)
    requires Serves(cfg, r) && StateOk(r, a, m, s) && Matches(t, cfg)
    requires OpOk(cfg, r, DoRegister(copy.address, copy.compat, copy.bytes), now)
    ensures StateOk(r, a', m', ServeStore(cfg, s, copy, now).0)
    ensures StoreLocally(t, Shelf(a), copy, luck) == (Shelf(a'), ServeStore(cfg, s, copy, now).1)
  {
    hide Serves, StateOk, Register, Restore, ToHex, Shelf;
    var oid := cfg.name(copy.address);
    var x := Register(cfg, s, copy.address, copy.compat, copy.bytes, now);
    KeptRegister(cfg, r, a, m, s, copy.address, copy.compat, copy.bytes, now);
    EntryKeys(r, a, m, s);
    ShelfHas(a, oid);
    a', m', luck := a, DescribedAfter(m, a, x.ops), Luck(true, false);
    if x.result.Ok? {
      a', luck := a[oid := Object(copy.address, copy.compat, copy.bytes, now)], Luck(false, false);
      ShelfInsert(a, oid, Object(copy.address, copy.compat, copy.bytes, now));
    } else if x.result.error == Exists && oid in s.entries {
      ExistsMeansThere(cfg, s, copy, now);
      m', luck := ServeExisting(cfg, r, a, m, s, copy, now);
      assert s.entries[oid].compatId == cfg.identify(a[oid].compat) by { CompatIdOf(cfg, r, a, m, s, oid); }
      assert Shelf(a)[ToHex(oid)] == CopyOf(a[oid]);
    }
  }

  /**
   * A Store is accepted if and only if the payload is well shaped and either the object is new, worth caching and fits,
   * or the same bytes are registered under an equal compatibility identity and can be had in host memory.
   */
  lemma StoreAcceptedIff(cfg: Config, r: Rules, a: Registry, m: Registry, s: State, copy: Copy, now: u64)
    requires Serves(cfg, r) && StateOk(r, a, m, s)
    requires OpOk(cfg, r, DoRegister(copy.address, copy.compat, copy.bytes), now)
    ensures var oid := cfg.name(copy.address); var charge := ChargeFor(cfg, s, copy.compat, copy.bytes);
      ServeStore(cfg, s, copy, now).1 <==>
        && O.WellShaped(cfg, copy.compat, copy.bytes)
        && if oid in a then
             && cfg.identify(a[oid].compat) == cfg.identify(copy.compat) && a[oid].payload == copy.bytes
             && s.entries[oid].placements != []
             && (HasTier(s.entries[oid], P.Host) || E.RoomIn(cfg, s, s.entries[oid], P.Host))
           else O.Worthwhile(cfg, |copy.bytes|) && charge <= Free(WithRoom(cfg, s, charge, now).host)
  {
    hide Serves, StateOk, Register, Restore, WithRoom, O.WellShaped, O.Worthwhile, E.RoomIn, HasTier, OpOk, Charged;
    var oid := cfg.name(copy.address);
    EntryKeys(r, a, m, s);
    O.RegisterOutcome(cfg, r, a, m, s, copy.address, copy.compat, copy.bytes, now);
    E.RestoreOutcome(cfg, r, a, m, s, oid, P.Host, now);
    if oid in s.entries {
      CompatIdOf(cfg, r, a, m, s, oid);
    }
  }

  lemma CompatIdOf(cfg: Config, r: Rules, a: Registry, m: Registry, s: State, oid: Digest)
    requires Serves(cfg, r) && StateOk(r, a, m, s) && oid in s.entries
    ensures oid in a && s.entries[oid].compatId == cfg.identify(a[oid].compat)
  {
    hide Usable, StateOk, DistinctTiers, PlacementOk, NoCollision;
    EntryFacts(cfg, r, a, m, s, oid);
  }

  lemma ServeExisting(cfg: Config, r: Rules, a: Registry, m: Registry, s: State, copy: Copy, now: u64)
    returns (m': Registry, luck: Luck)
    requires Serves(cfg, r) && StateOk(r, a, m, s) && cfg.name(copy.address) in s.entries
    requires Register(cfg, s, copy.address, copy.compat, copy.bytes, now).result == Err(Exists)
    ensures var oid, served := cfg.name(copy.address), ServeStore(cfg, s, copy, now);
      && oid in a && !luck.refused && StateOk(r, a, m', served.0)
      && served.1 ==
         (s.entries[oid].compatId == cfg.identify(copy.compat) && !luck.unreadable && a[oid].payload == copy.bytes)
  {
    hide Serves, StateOk, Register, Restore;
    var oid := cfg.name(copy.address);
    EntryKeys(r, a, m, s);
    var y := Restore(cfg, s, oid, P.Host, now);
    KeptRestore(cfg, r, a, m, s, oid, P.Host, now);
    KeptState(r, a, m, s, y.state, y.ops, {});
    m', luck := m, Luck(false, y.result.Err?);
    if s.entries[oid].compatId == cfg.identify(copy.compat) {
      m' := DescribedAfter(m, a, y.ops);
    }
  }

  /** What a node reads back for a peer or for a migration is its copy. */
  lemma ReadIsCopy(cfg: Config, r: Rules, a: Registry, m: Registry, s: State, oid: Digest, now: u64)
    requires Serves(cfg, r) && StateOk(r, a, m, s) && Restore(cfg, s, oid, P.Host, now).result.Ok?
    ensures ToHex(oid) in Shelf(a) && Restore(cfg, s, oid, P.Host, now).result.value == Shelf(a)[ToHex(oid)].bytes
  {
    hide Serves, StateOk, Restore, Shelf, ToHex;
    KeptRestore(cfg, r, a, m, s, oid, P.Host, now);
  }
}

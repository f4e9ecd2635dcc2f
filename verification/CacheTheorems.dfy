/** The main results about the runtime, with the real encodings in place of the abstract rules. */
module CacheTheorems {
  import opened Prelude
  import opened Storage
  import opened Accounting
  import opened BlockArena
  import opened Sums
  import opened Shapes
  import opened Compat
  import opened Manifests
  import opened CacheSpec
  import opened CacheLoads
  import opened DiskSafety
  import opened CacheInvariant
  import opened CacheOperations
  import opened CacheRecovery
  import opened CacheRuns
  import opened CacheCrashes
  import A = CacheAccounting
  import D = CacheDurability
  import F = CacheManifests
  import G = CacheStaleness
  import V = CacheSurvival
  import X = CacheExactness
  import Ev = Eviction
  import P = Planner

  // ---- The real rules ----------------------------------------------------------------------

  function BlocksOf(cfg: Config, obj: Object): seq<BlockRef> {
    if |obj.payload| < TWO_64 && Chunk(cfg.content, obj.payload, cfg.blockSize).Ok? then
      Chunk(cfg.content, obj.payload, cfg.blockSize).value else []
  }

  function LengthOf(obj: Object): u64 {
    if |obj.payload| < TWO_64 then |obj.payload| else 0
  }

  function CountOf(obj: Object): u64 {
    if Numel(obj.compat.dims).Ok? then Numel(obj.compat.dims).value else 0
  }

  function MetaFor(cfg: Config, oid: Digest, obj: Object): Meta {
    Meta(ToHex(oid), obj.address.namespace, obj.address.key, obj.address.generation, obj.compat,
         LengthOf(obj), CountOf(obj), obj.createdNs, BlocksOf(cfg, obj))
  }

  /**
   * What registration has checked of an object, what the types guarantee of its texts, and that its blocks and
   * encodings are known.
   */
  ghost predicate ObjectOk(cfg: Config, known: iset<Bytes>, oid: Digest, obj: Object) {
    && oid == cfg.name(obj.address)
    && |obj.payload| < TWO_64
    && Chunk(cfg.content, obj.payload, cfg.blockSize) == Ok(BlocksOf(cfg, obj))
    && StretchesKnown(obj.payload, BlocksOf(cfg, obj), known)
    && Numel(obj.compat.dims).Ok?
    && TypedMeta(MetaFor(cfg, oid, obj)) && Coherent(MetaFor(cfg, oid, obj))
    && EncodeAddress(obj.address) in known && Encode(obj.compat) in known
  }

  ghost function RulesOf(cfg: Config, known: iset<Bytes>): Rules {
    Rules(cfg.content, known, cfg.hasStore,
          (o: Digest, x: Object) => ObjectOk(cfg, known, o, x),
          (x: Object) => ValidLayout(x.compat.layout, x.compat.dims),
          (o: Digest, x: Object) => cfg.codec.write(MetaFor(cfg, o, x)),
          (x: Object) => BlocksOf(cfg, x), (x: Object) => LengthOf(x), (x: Object) => CountOf(x), cfg.identify)
  }

  /** The configuration names and stores objects by the canonical encodings. */
  ghost predicate Wired(cfg: Config) {
    && (forall m :: cfg.codec.write(m) == EncodeManifest(cfg.content, m))
    && (forall b :: cfg.codec.read(b) == DecodeManifest(cfg.content, b))
    && (forall a :: cfg.name(a) == ObjectId(cfg.content, a))
    && (forall k :: cfg.identify(k) == CompatId(cfg.content, k))
  }

  /** Such a configuration exists for every choice of digest, checksum and settings. */
  lemma StandardWiring(c: Content, blockSize: nat, hasStore: bool, admission: Admission, policy: Ev.Policy,
                       cost: P.CostModel) returns (cfg: Config)
    ensures Wired(cfg) && cfg.content == c && cfg.blockSize == blockSize && cfg.hasStore == hasStore
    ensures cfg.admission == admission && cfg.policy == policy && cfg.cost == cost
  {
    hide EncodeManifest, DecodeManifest, ObjectId, CompatId;
    cfg := Config(c, ManifestCodec((m: Meta) => EncodeManifest(c, m), (b: Bytes) => DecodeManifest(c, b)),
                  (a: Address) => ObjectId(c, a), (k: CompatKey) =>
                    CompatId(c, k), blockSize, hasStore, admission, policy, cost);
  }

  lemma ObjectUsable(cfg: Config, known: iset<Bytes>, oid: Digest, obj: Object)
    requires Wired(cfg) && ObjectOk(cfg, known, oid, obj)
    ensures Usable(cfg, RulesOf(cfg, known), oid, obj)
  {
    hide EncodeManifest, DecodeManifest, ObjectId, CompatId, Encode, EncodeAddress, TypedMeta, Coherent;
    ChunkIsAccepted(cfg.content, obj.payload, cfg.blockSize);
    ReadableIffLayoutValid(cfg.content, MetaFor(cfg, oid, obj));
    assert MetaBy(RulesOf(cfg, known), oid, obj) == MetaFor(cfg, oid, obj);
  }

  lemma RulesServe(cfg: Config, known: iset<Bytes>)
    requires Wired(cfg) && NoCollision(cfg.content, known)
    ensures Serves(cfg, RulesOf(cfg, known))
  {
    hide Wired, Usable, ObjectOk;
    var r := RulesOf(cfg, known);
    forall oid, obj | r.good(oid, obj)
      ensures Usable(cfg, r, oid, obj)
    {
      ObjectUsable(cfg, known, oid, obj);
    }
  }

  /**
   * What the types guarantee of a registration's texts, and that its blocks and encodings are among the known strings.
   */
  ghost predicate InputOk(cfg: Config, known: iset<Bytes>, op: Op) {
    op.DoRegister? ==>
      && WellTypedAddress(op.address) && WellTyped(op.compat) && |Encode(op.compat)| < TWO_64
      && EncodeAddress(op.address) in known && Encode(op.compat) in known
      && (|op.payload| < TWO_64 && Chunk(cfg.content, op.payload, cfg.blockSize).Ok? ==>
          StretchesKnown(op.payload, Chunk(cfg.content, op.payload, cfg.blockSize).value, known))
  }

  /** A registration that passes its own checks registers a well-formed object. */
  lemma InputsSuffice(cfg: Config, known: iset<Bytes>, op: Op, now: u64)
    requires InputOk(cfg, known, op)
    ensures OpOk(cfg, RulesOf(cfg, known), op, now)
  {
    hide Encode, EncodeAddress;
    if op.DoRegister? && CheckPayload(cfg, op.compat, op.payload).Ok? {
      var obj := Object(op.address, op.compat, op.payload, now);
      HexIsText(cfg.name(op.address));
      assert ObjectOk(cfg, known, cfg.name(op.address), obj);
    }
  }

  // ---- Reachable worlds --------------------------------------------------------------------

  /** A cache opened over an empty directory. */
  ghost predicate Initial(w: World) {
    && w.a == map[] && w.m == map[] && w.history == iset{}
    && (exists h, t, bs :: Idle(bs) && w.s == Fresh(map[], h, t, bs))
  }

  lemma InitialOk(r: Rules, w: World)
    requires Initial(w)
    ensures WorldOk(r, w)
  {
    var h, t, bs :| Idle(bs) && w.s == Fresh(map[], h, t, bs);
    FreshOk(r, map[], map[], h, t, bs);
  }

  ghost predicate Reachable(cfg: Config, known: iset<Bytes>, w0: World, evs: seq<Event>) {
    Wired(cfg) && NoCollision(cfg.content, known) && Initial(w0) && RunOk(cfg, RulesOf(cfg, known), w0, evs)
  }

  ghost function Reached(cfg: Config, known: iset<Bytes>, w0: World, evs: seq<Event>): World
    requires Reachable(cfg, known, w0, evs)
  {
    After(cfg, RulesOf(cfg, known), w0, evs)
  }

  lemma ReachedOk(cfg: Config, known: iset<Bytes>, w0: World, evs: seq<Event>)
    requires Reachable(cfg, known, w0, evs)
    ensures Serves(cfg, RulesOf(cfg, known)) && WorldOk(RulesOf(cfg, known), Reached(cfg, known, w0, evs))
  {
    hide Wired, NoCollision, Serves, WorldOk, Initial, RunOk;
    var r := RulesOf(cfg, known);
    RulesServe(cfg, known);
    InitialOk(r, w0);
    RunKeeps(cfg, r, w0, evs);
  }

  // ---- The theorems ------------------------------------------------------------------------

  /**
   * After any run of operations and crashes, the cache holds exactly the identities of the write-once map; each
   * entry's copies, in every tier that holds one, are the registered bytes; verification never disagrees.
   */
  lemma CacheIsWriteOnceMap(cfg: Config, known: iset<Bytes>, w0: World, evs: seq<Event>, oid: Digest)
    requires Reachable(cfg, known, w0, evs)
    ensures var w := Reached(cfg, known, w0, evs);
      && w.s.entries.Keys == w.a.Keys
      && (oid in w.s.entries ==>
          && (oid, w.a[oid]) in w.history
          && Materialize(cfg, w.s, oid) ==
             (if w.s.entries[oid].placements == [] then Err(Error.Reconstruct) else Ok(w.a[oid].payload))
          && Verify(cfg, w.s, oid) == (if w.s.entries[oid].placements == [] then Err(Error.Reconstruct) else Ok(()))
          && forall i :: 0 <= i < |w.s.entries[oid].placements| ==>
               MaterializeFrom(cfg, w.s, oid, TierOf(w.s.entries[oid].placements[i])) == Ok(w.a[oid].payload))
  {
    hide Reachable, Serves, StateOk, Materialize, MaterializeFrom, Verify;
    var w, r := Reached(cfg, known, w0, evs), RulesOf(cfg, known);
    ReachedOk(cfg, known, w0, evs);
    EntryKeys(r, w.a, w.m, w.s);
    if oid in w.s.entries {
      MaterializeYieldsPayload(cfg, r, w.a, w.m, w.s, oid);
      VerifySucceeds(cfg, r, w.a, w.m, w.s, oid);
      forall i | 0 <= i < |w.s.entries[oid].placements|
        ensures MaterializeFrom(cfg, w.s, oid, TierOf(w.s.entries[oid].placements[i])) == Ok(w.a[oid].payload)
      {
        EveryPlacementYieldsPayload(cfg, r, w.a, w.m, w.s, oid, i);
      }
    }
  }

  /** Any restore that succeeds in a reachable state returns the registered bytes. */
  lemma RestoreReturnsRegistered(cfg: Config, known: iset<Bytes>, w0: World, evs: seq<Event>, oid: Digest, t: Tier,
                                 now: u64)
    requires Reachable(cfg, known, w0, evs)
    ensures var w := Reached(cfg, known, w0, evs); var x := Restore(cfg, w.s, oid, t, now);
      x.result.Ok? ==> oid in w.a && (oid, w.a[oid]) in w.history && x.result.value == w.a[oid].payload
  {
    hide Reachable, Serves, StateOk, Restore;
    var w, r := Reached(cfg, known, w0, evs), RulesOf(cfg, known);
    ReachedOk(cfg, known, w0, evs);
    KeptRestore(cfg, r, w.a, w.m, w.s, oid, t, now);
  }

  /**
   * The write-once map is write-once, over completed operations and crashes alike: an identity that is present before
   * and after an event keeps its object -- except if, and only if, a crash finds a stale manifest of that identity
   * and the interrupted operation had not yet put the new manifest in place.
   */
  lemma RegisteredValueIsStable(cfg: Config, known: iset<Bytes>, w0: World, evs: seq<Event>, ev: Event, oid: Digest)
    requires Reachable(cfg, known, w0, evs)
    requires EventOk(cfg, RulesOf(cfg, known), Reached(cfg, known, w0, evs), ev)
    ensures var w := Reached(cfg, known, w0, evs); var w' := Next(cfg, RulesOf(cfg, known), w, ev);
      oid in w.a && oid in w'.a ==>
        (w'.a[oid] == w.a[oid] <==> ev.Run? || !F.Stale(w, oid) || G.Written(G.Cut(cfg, w, ev), oid))
  {
    hide Reachable, Serves, StateOk, Step, StepKept, Open, SameButTemps, Lists, F.Stale, G.Written;
    var w, r := Reached(cfg, known, w0, evs), RulesOf(cfg, known);
    ReachedOk(cfg, known, w0, evs);
    if ev.Run? {
      StepRefines(cfg, r, w.a, w.m, w.s, ev.op, ev.now);
    } else if oid in Next(cfg, r, w, ev).a {
      G.AdmittedIsCurrentIff(cfg, r, w, ev, oid);
    }
  }

  /**
   * When manifests get stale. As long as every crash left only manifests that the reopening admitted, none is stale.
   * The next event then leaves a stale manifest of an object if and only if it is a crash that leaves a manifest of
   * it, and the layout does not suit the shape or the crash fell into the deletion of that very object after one of
   * its block files was gone.
   */
  lemma ManifestGoesStaleIff(cfg: Config, known: iset<Bytes>, w0: World, evs: seq<Event>, ev: Event, oid: Digest)
    requires Reachable(cfg, known, w0, evs) && cfg.hasStore
    requires EventOk(cfg, RulesOf(cfg, known), Reached(cfg, known, w0, evs), ev)
    requires F.CrashesClean(cfg, RulesOf(cfg, known), w0, evs)
    ensures var w, r := Reached(cfg, known, w0, evs), RulesOf(cfg, known);
      && !F.Stale(w, oid)
      && (F.Stale(Next(cfg, r, w, ev), oid) <==>
          && ev.CrashIn? && oid in w.a && G.Leaves(w, G.Cut(cfg, w, ev), oid)
          && (|| !ValidLayout(w.a[oid].compat.layout, w.a[oid].compat.dims)
              || G.CutsDeletion(r, w, ev, G.Cut(cfg, w, ev), oid)))
  {
    hide Wired, NoCollision, Serves, StateOk, RunOk, EventOk, F.Tracked, ValidLayout, F.CrashesClean, Next;
    hide G.Leaves, G.CutsDeletion, G.Cut;
    var w, r := Reached(cfg, known, w0, evs), RulesOf(cfg, known);
    ReachedOk(cfg, known, w0, evs);
    RulesServe(cfg, known);
    InitialOk(r, w0);
    assert F.Tracked(w0.m, w0.s.entries) by { NothingTracked(w0); }
    F.FreshRun(cfg, r, w0, evs);
    F.TrackedIsFresh(r, w, oid);
    if ev.Run? {
      F.TrackedNext(cfg, r, w, ev);
      NextKeeps(cfg, r, w, ev);
      F.TrackedIsFresh(r, Next(cfg, r, w, ev), oid);
    } else {
      G.GoesStaleIff(cfg, r, w, ev, oid);
    }
  }

  /**
   * After whatever run, other stale manifests or not: a crash leaves a stale manifest under an identity if and only
   * if it leaves a manifest of an object whose layout does not suit its shape or one of whose block files is missing
   * at the crash point.
   */
  lemma StaleAfterCrashIff(cfg: Config, known: iset<Bytes>, w0: World, evs: seq<Event>, ev: Event, oid: Digest)
    requires Reachable(cfg, known, w0, evs) && cfg.hasStore
    requires ev.CrashIn? && EventOk(cfg, RulesOf(cfg, known), Reached(cfg, known, w0, evs), ev)
    ensures var w := Reached(cfg, known, w0, evs); var cut := G.Cut(cfg, w, ev);
      && (G.Written(cut, oid) ==> oid in w.a)
      && (F.Stale(Next(cfg, RulesOf(cfg, known), w, ev), oid) <==>
          && G.Leaves(w, cut, oid)
          && var obj := G.Left(w, cut, oid);
             || !ValidLayout(obj.compat.layout, obj.compat.dims)
             || !BlocksExist(ApplyAll(w.s.disk, cut), BlocksOf(cfg, obj)))
  {
    hide Reachable, Serves, WorldOk, EventOk, Next, F.Stale, G.Leaves, G.Written, G.Cut, ValidLayout, BlocksExist;
    ReachedOk(cfg, known, w0, evs);
    G.StaleAfterCrashIff(cfg, RulesOf(cfg, known), Reached(cfg, known, w0, evs), ev, oid);
  }

  lemma NothingTracked(w: World)
    requires w.m == map[]
    ensures F.Tracked(w.m, w.s.entries)
  {
  }

  /**
   * A crash at any file-system step of any operation: whatever the reopened cache admits restores to bytes that were
   * registered under that identity; and it is the object registered there now if and only if no stale manifest of it
   * was left or the interrupted operation had already put the new manifest in place.
   */
  lemma ReopeningAdmitsOnlyRegistered(cfg: Config, known: iset<Bytes>, w0: World, evs: seq<Event>, ev: Event,
                                      oid: Digest)
    requires Reachable(cfg, known, w0, evs)
    requires ev.CrashIn? && EventOk(cfg, RulesOf(cfg, known), Reached(cfg, known, w0, evs), ev)
    ensures var w := Reached(cfg, known, w0, evs); var w' := Next(cfg, RulesOf(cfg, known), w, ev);
      oid in w'.s.entries ==>
        && oid in w'.a && (oid, w'.a[oid]) in w.history && Materialize(cfg, w'.s, oid) == Ok(w'.a[oid].payload)
        && ((oid in w.a && w'.a[oid] == w.a[oid]) <==> !F.Stale(w, oid) || G.Written(G.Cut(cfg, w, ev), oid))
  {
    hide Reachable, Serves, StateOk, Materialize, EventOk, Next, WorldOk, F.Stale, G.Written, G.Cut;
    var w, r := Reached(cfg, known, w0, evs), RulesOf(cfg, known);
    ReachedOk(cfg, known, w0, evs);
    AdmittedRestores(cfg, r, w, ev, oid);
    if oid in Next(cfg, r, w, ev).s.entries {
      G.AdmittedIsCurrentIff(cfg, r, w, ev, oid);
    }
  }

  /**
   * A reopened cache, after a crash at any point: nothing in memory or on devices, the budgets and devices it was
   * opened with, the files as they were left but for the temporary ones; and every entry in storage only, durable, not
   * yet used, and otherwise as it was registered.
   */
  lemma ReopenedCache(cfg: Config, known: iset<Bytes>, w0: World, evs: seq<Event>, ev: Event, oid: Digest)
    requires Reachable(cfg, known, w0, evs) && cfg.hasStore
    requires ev.CrashIn? && EventOk(cfg, RulesOf(cfg, known), Reached(cfg, known, w0, evs), ev)
    ensures var w := Reached(cfg, known, w0, evs); var w' := Next(cfg, RulesOf(cfg, known), w, ev); var s := w'.s;
      && s.arena == EMPTY_ARENA && s.accelUsed == 0 && s.backends == ev.backends
      && s.host == Budget(ev.hostCapacity, 0, 0) && s.storage == Budget(ev.storageCapacity, 0, 0)
      && (forall p :: p in s.disk <==> p in ev.image && !p.Temp?)
      && (forall p :: p in s.disk ==> s.disk[p] == ev.image[p])
      && (oid in s.entries ==>
          && oid in w'.a && s.entries[oid].address == w'.a[oid].address && s.entries[oid].compat == w'.a[oid].compat
          && s.entries[oid].byteLen == |w'.a[oid].payload| && s.entries[oid].createdNs == w'.a[oid].createdNs
          && s.entries[oid].placements == [OnDisk] && s.entries[oid].durable
          && s.entries[oid].reuseCount == 0 && s.entries[oid].lastUseNs == ev.reopenedAt)
  {
    hide Reachable, Serves, StateOk, RecoverAll, Clean, OpOk, Step, SameButTemps, Lists;
    var w, r := Reached(cfg, known, w0, evs), RulesOf(cfg, known);
    var w' := Next(cfg, r, w, ev);
    ReachedOk(cfg, known, w0, evs);
    NextKeeps(cfg, r, w, ev);
    X.RecoveryLeavesHost(cfg, Fresh(Clean(ev.image), ev.hostCapacity, ev.storageCapacity, ev.backends), ev.listing,
      ev.reopenedAt);
    CleanIs(ev.image);
    OpenedEntryPlaced(cfg, ev.image, ev.listing, ev.hostCapacity, ev.storageCapacity, ev.backends, ev.reopenedAt, oid);
    if oid in w'.s.entries {
      SameMetadata(cfg, r, w'.a, w'.m, w'.s, oid);
    }
  }

  lemma CleanIs(d: Disk)
    ensures (forall p :: p in Clean(d) <==> p in d && !p.Temp?) && (forall p :: p in Clean(d) ==> Clean(d)[p] == d[p])
  {
  }

  lemma SameMetadata(cfg: Config, r: Rules, a: Registry, m: Registry, s: State, oid: Digest)
    requires Serves(cfg, r) && StateOk(r, a, m, s) && oid in s.entries
    ensures oid in a && s.entries[oid].address == a[oid].address && s.entries[oid].compat == a[oid].compat
    ensures s.entries[oid].byteLen == |a[oid].payload| && s.entries[oid].createdNs == a[oid].createdNs
  {
    hide Serves, StateOk, DistinctTiers, PlacementOk;
    EntryFacts(cfg, r, a, m, s, oid);
  }

  /**
   * A deleted object stays deleted: once a deletion has returned, no reopening at any later crash point admits the
   * identity, until it is persisted again.
   */
  lemma DeletedStaysDeleted(cfg: Config, known: iset<Bytes>, w0: World, xs: seq<Event>, oid: Digest, now: u64,
                            ys: seq<Event>, crash: Event)
    requires Reachable(cfg, known, w0, xs)
    requires var r, w := RulesOf(cfg, known), Reached(cfg, known, w0, xs);
      && Step(cfg, w.s, DoDelete(oid), now).result.Ok? && EventOk(cfg, r, w, Run(DoDelete(oid), now))
      && var w1 := Next(cfg, r, w, Run(DoDelete(oid), now));
      && RunOk(cfg, r, w1, ys) && F.NeverPersists(ys, oid)
      && crash.CrashIn? && EventOk(cfg, r, After(cfg, r, w1, ys), crash) && oid !in F.Persisting(crash.op)
    ensures var r, w := RulesOf(cfg, known), Reached(cfg, known, w0, xs);
      var w1 := Next(cfg, r, w, Run(DoDelete(oid), now));
      oid !in Next(cfg, r, After(cfg, r, w1, ys), crash).s.entries
  {
    hide Reachable, Serves, StateOk, Delete, RunOk, F.NeverPersists, F.Persisting, Open, OpOk;
    var r, w := RulesOf(cfg, known), Reached(cfg, known, w0, xs);
    var w1 := Next(cfg, r, w, Run(DoDelete(oid), now));
    ReachedOk(cfg, known, w0, xs);
    NextKeeps(cfg, r, w, Run(DoDelete(oid), now));
    RunKeeps(cfg, r, w1, ys);
    NotAdmittedAfter(cfg, r, w, oid, now, ys, crash);
  }

  lemma NotAdmittedAfter(cfg: Config, r: Rules, w: World, oid: Digest, now: u64, ys: seq<Event>, crash: Event)
    requires Serves(cfg, r) && WorldOk(r, w) && Delete(cfg, w.s, oid).result.Ok?
    requires EventOk(cfg, r, w, Run(DoDelete(oid), now))
    requires var w1 := Next(cfg, r, w, Run(DoDelete(oid), now));
      && WorldOk(r, w1) && RunOk(cfg, r, w1, ys) && F.NeverPersists(ys, oid) && WorldOk(r, After(cfg, r, w1, ys))
      && crash.CrashIn? && EventOk(cfg, r, After(cfg, r, w1, ys), crash) && oid !in F.Persisting(crash.op)
    ensures var w1 := Next(cfg, r, w, Run(DoDelete(oid), now));
      oid !in Next(cfg, r, After(cfg, r, w1, ys), crash).s.entries
  {
    hide Serves, StateOk, Delete, RunOk, After, F.NeverPersists, F.Persisting, Open, OpOk, SameButTemps, Lists;
    var w1 := Next(cfg, r, w, Run(DoDelete(oid), now));
    var w2 := After(cfg, r, w1, ys);
    NextKeeps(cfg, r, w2, crash);
    var w3 := Next(cfg, r, w2, crash);
    EntryKeys(r, w3.a, w3.m, w3.s);
    if cfg.hasStore {
      F.DeletionForgets(cfg, r, w.a, w.m, w.s, oid);
      F.UndescribedRun(cfg, r, w1, ys, oid);
      F.UndescribedNext(cfg, r, w2, crash, oid);
    }
  }

  /**
   * A persisted object stays persisted: once a persist has returned, the object is on disk with its registered bytes
   * after every run that does not begin to delete it, through crashes at any point when its layout suits its shape.
   */
  lemma PersistedStaysPersisted(cfg: Config, known: iset<Bytes>, w0: World, xs: seq<Event>, oid: Digest, now: u64,
                                ys: seq<Event>)
    requires Reachable(cfg, known, w0, xs)
    requires var r, w := RulesOf(cfg, known), Reached(cfg, known, w0, xs);
      && Step(cfg, w.s, DoPersist(oid), now).result.Ok? && EventOk(cfg, r, w, Run(DoPersist(oid), now))
      && RunOk(cfg, r, Next(cfg, r, w, Run(DoPersist(oid), now)), ys) && V.NeverDeletes(ys, oid)
      && (V.NeverCrashes(ys) || (oid in w.a && ValidLayout(w.a[oid].compat.layout, w.a[oid].compat.dims)))
    ensures var r, w := RulesOf(cfg, known), Reached(cfg, known, w0, xs);
      var w2 := After(cfg, r, Next(cfg, r, w, Run(DoPersist(oid), now)), ys);
      && oid in w.a && oid in w2.a && w2.a[oid] == w.a[oid]
      && oid in w2.s.entries && OnDisk in w2.s.entries[oid].placements
      && Materialize(cfg, w2.s, oid) == Ok(w.a[oid].payload)
  {
    hide Reachable, Serves, WorldOk, EventOk, Persist, Next, RunOk, Materialize, ValidLayout, V.NeverDeletes, V.Holds;
    var r, w := RulesOf(cfg, known), Reached(cfg, known, w0, xs);
    var w1 := Next(cfg, r, w, Run(DoPersist(oid), now));
    ReachedOk(cfg, known, w0, xs);
    V.PersistHolds(cfg, r, w, oid, now);
    NextKeeps(cfg, r, w, Run(DoPersist(oid), now));
    V.RunSpares(cfg, r, w1, ys, oid, w.a[oid]);
    RunKeeps(cfg, r, w1, ys);
    HeldMaterializes(cfg, r, After(cfg, r, w1, ys), oid, w.a[oid]);
  }

  lemma HeldMaterializes(cfg: Config, r: Rules, w: World, oid: Digest, obj: Object)
    requires Serves(cfg, r) && WorldOk(r, w) && V.Holds(w, oid, obj)
    ensures oid in w.a && w.a[oid] == obj && oid in w.s.entries && OnDisk in w.s.entries[oid].placements
    ensures Materialize(cfg, w.s, oid) == Ok(obj.payload)
  {
    hide Serves, StateOk, Materialize;
    MaterializeYieldsPayload(cfg, r, w.a, w.m, w.s, oid);
  }

  /**
   * A crash outside its own deletion spares every object with a storage placement, with its own bytes and even when
   * it shares blocks with the object being deleted -- if and only if its layout suits its shape.
   */
  lemma ReopeningAdmitsPersisted(cfg: Config, known: iset<Bytes>, w0: World, evs: seq<Event>, ev: Event, oid: Digest)
    requires Reachable(cfg, known, w0, evs) && cfg.hasStore
    requires ev.CrashIn? && EventOk(cfg, RulesOf(cfg, known), Reached(cfg, known, w0, evs), ev)
    requires var w := Reached(cfg, known, w0, evs);
      oid in w.s.entries && OnDisk in w.s.entries[oid].placements && !(ev.op.DoDelete? && ev.op.oid == oid)
    ensures var w := Reached(cfg, known, w0, evs); var w' := Next(cfg, RulesOf(cfg, known), w, ev);
      && (oid in w'.s.entries <==> ValidLayout(w.s.entries[oid].compat.layout, w.s.entries[oid].compat.dims))
      && (oid in w'.s.entries ==> Materialize(cfg, w'.s, oid) == Materialize(cfg, w.s, oid))
  {
    hide Reachable, Serves, StateOk, Materialize, EventOk, Next, ValidLayout;
    var w, r := Reached(cfg, known, w0, evs), RulesOf(cfg, known);
    var w' := Next(cfg, r, w, ev);
    ReachedOk(cfg, known, w0, evs);
    PersistedSurvives(cfg, r, w, ev, oid);
    AdmittedRestores(cfg, r, w, ev, oid);
    NextKeeps(cfg, r, w, ev);
    EntryKeys(r, w'.a, w'.m, w'.s);
    SameCompat(r, w.a, w.m, w.s, oid);
    MaterializeYieldsPayload(cfg, r, w.a, w.m, w.s, oid);
  }

  lemma SameCompat(r: Rules, a: Registry, m: Registry, s: State, oid: Digest)
    requires StateOk(r, a, m, s) && oid in s.entries
    ensures oid in a && s.entries[oid].compat == a[oid].compat && s.entries[oid].address == a[oid].address
    ensures s.entries[oid].compatId == r.identify(a[oid].compat) && r.good(oid, a[oid])
  {
    hide Linked, DiskSound, HostOk, StoreOk, DeviceOk, DistinctTiers, PlacementOk;
    assert EntryOk(r, s.backends.Keys, oid, a[oid], s.entries[oid]);
  }

  /** One more use at this moment, and nothing else. */
  ghost predicate UsedOnceMore(e: Entry, after: Entry, now: u64) {
    && after.reuseCount == (if e.reuseCount < U64_MAX then e.reuseCount + 1 else U64_MAX) && after.lastUseNs == now
    && after == e.(reuseCount := after.reuseCount, lastUseNs := after.lastUseNs)
  }

  /**
   * A lookup hits if and only if the object registered under the identity of the address has that address and every
   * compatibility field equal. A hit counts one use of that entry and changes nothing else; a miss changes nothing, and
   * says whether nothing is registered or something incompatible.
   */
  lemma LookupIsExact(cfg: Config, known: iset<Bytes>, w0: World, evs: seq<Event>, address: Address, k: CompatKey,
                      now: u64)
    requires Reachable(cfg, known, w0, evs)
    requires WellTypedAddress(address) && WellTyped(k) && EncodeAddress(address) in known && Encode(k) in known
    ensures var w, oid := Reached(cfg, known, w0, evs), ObjectId(cfg.content, address);
      var x := Lookup(cfg, w.s, address, k, now);
      && (x.result.Ok? <==> oid in w.a && w.a[oid].address == address && w.a[oid].compat == k)
      && (x.result.Ok? ==>
          && x.result.value == oid && x.ops == [] && oid in w.s.entries && oid in x.state.entries
          && x.state == w.s.(entries := w.s.entries[oid := x.state.entries[oid]])
          && UsedOnceMore(w.s.entries[oid], x.state.entries[oid], now))
      && (x.result.Err? ==>
          && x.state == w.s && x.ops == []
          && x.result == Err(if oid in w.a then Error.Compatibility else NotFound))
  {
    hide Serves, StateOk, Encode, EncodeAddress, RunOk, Initial;
    var w, r := Reached(cfg, known, w0, evs), RulesOf(cfg, known);
    var oid := cfg.name(address);
    ReachedOk(cfg, known, w0, evs);
    EntryKeys(r, w.a, w.m, w.s);
    if oid in w.s.entries {
      SameCompat(r, w.a, w.m, w.s, oid);
      SameIdentitySameKey(cfg, known, oid, w.a[oid], address, k);
    }
  }

  lemma SameIdentitySameKey(cfg: Config, known: iset<Bytes>, oid: Digest, obj: Object, address: Address, k: CompatKey)
    requires Wired(cfg) && NoCollision(cfg.content, known) && RulesOf(cfg, known).good(oid, obj)
    requires WellTypedAddress(address) && WellTyped(k) && EncodeAddress(address) in known && Encode(k) in known
    ensures oid == cfg.name(address) ==> obj.address == address
    ensures cfg.identify(obj.compat) == cfg.identify(k) <==> obj.compat == k
  {
    hide Encode, EncodeAddress;
    GoodEncodings(cfg, known, oid, obj);
    if oid == cfg.name(address) {
      assert cfg.content.hash(EncodeAddress(obj.address)) == cfg.content.hash(EncodeAddress(address));
      AddressInjective(obj.address, address);
    }
    if cfg.identify(obj.compat) == cfg.identify(k) {
      assert cfg.content.hash(Encode(obj.compat)) == cfg.content.hash(Encode(k));
      EncodeInjective(obj.compat, k);
    }
  }

  lemma GoodEncodings(cfg: Config, known: iset<Bytes>, oid: Digest, obj: Object)
    requires RulesOf(cfg, known).good(oid, obj)
    ensures oid == cfg.name(obj.address) && EncodeAddress(obj.address) in known && Encode(obj.compat) in known
    ensures WellTypedAddress(obj.address) && WellTyped(obj.compat)
  {
    hide Encode, EncodeAddress, Coherent;
    assert ObjectOk(cfg, known, oid, obj);
  }

  /**
   * Durable conservation. Storage and device accounting is exact in every reachable state: references count occurrences
   * in persistently placed block lists, bytes are those of the referenced files, device bytes those of the device
   * placements; and durable entries are on disk unless some completed deletion left its object behind, which
   * `LosesDurable` decides.
   */
  lemma DurableAccountingIsExact(cfg: Config, known: iset<Bytes>, w0: World, evs: seq<Event>)
    requires Reachable(cfg, known, w0, evs)
    ensures var s := Reached(cfg, known, w0, evs).s; var total := TotalLoad(s.entries);
      && (forall h :: CountIn(s.diskRefs, h) == total[DiskRef(h)])
      && s.storageUsed == SumValues(FileSizes(s.diskRefs, s.disk))
      && s.accelUsed == total[AnyDeviceByte]
      && (forall b :: b in s.backends ==> s.backends[b].inUse == total[DeviceByte(b)])
      && s.objectCount == |s.entries|
      && (s.entries == map[] ==> s.diskRefs == map[] && s.storageUsed == 0 && s.accelUsed == 0 && s.objectCount == 0)
      && (D.DeletesClean(cfg, RulesOf(cfg, known), w0, evs) ==>
          forall oid :: oid in s.entries && s.entries[oid].durable ==> OnDisk in s.entries[oid].placements)
  {
    hide Wired, NoCollision, RunOk, After, Serves, EntriesOk, Linked, DiskSound, HostOk, D.DeletesClean;
    ReachedOk(cfg, known, w0, evs);
    if D.DeletesClean(cfg, RulesOf(cfg, known), w0, evs) {
      DurableThroughout(cfg, known, w0, evs);
    }
    var s := Reached(cfg, known, w0, evs).s;
    if s.entries == map[] {
      assert Loads(s.entries) == map[] && TotalLoad(s.entries) == multiset{};
      assert forall h :: h in s.diskRefs ==> CountIn(s.diskRefs, h) >= 1;
      assert s.diskRefs == map[];
      assert FileSizes(s.diskRefs, s.disk) == map[];
    }
  }

  lemma DurableThroughout(cfg: Config, known: iset<Bytes>, w0: World, evs: seq<Event>)
    requires Reachable(cfg, known, w0, evs) && D.DeletesClean(cfg, RulesOf(cfg, known), w0, evs)
    ensures A.DurableOnDisk(Reached(cfg, known, w0, evs).s.entries)
  {
    hide Wired, NoCollision, Serves, StateOk, RunOk, D.DeletesClean;
    RulesServe(cfg, known);
    InitialOk(RulesOf(cfg, known), w0);
    D.DurableRun(cfg, RulesOf(cfg, known), w0, evs);
  }

  /**
   * Host accounting over whole runs, crashes included. If no registration's room-making frees a block of the incoming
   * payload, the account covers the arena and references are exact, so no removal fails and durable entries are on
   * disk; if moreover no payload repeats a block (`tight`), the account is the arena's size exactly.
   */
  lemma HostAccountingIsExact(cfg: Config, known: iset<Bytes>, w0: World, evs: seq<Event>, tight: bool)
    requires Reachable(cfg, known, w0, evs) && X.FairRun(cfg, RulesOf(cfg, known), w0, evs, tight)
    ensures var s := Reached(cfg, known, w0, evs).s;
      && s.arena.bytes <= s.host.used <= s.host.capacity && s.host.reserved == 0
      && (tight ==> s.host.used == s.arena.bytes)
      && (forall h :: RefCount(s.arena, h) == TotalLoad(s.entries)[HostRef(h)])
      && (forall oid :: oid in s.entries && s.entries[oid].durable ==> OnDisk in s.entries[oid].placements)
      && (forall oid :: oid in s.entries ==> Evict(cfg, s, oid).result.Ok? && Delete(cfg, s, oid).result.Ok?)
      && (s.entries == map[] ==> s.arena.blocks == map[] && s.arena.bytes == 0)
  {
    hide Wired, NoCollision, Serves, StateOk, RunOk, X.FairRun, Evict, Delete, TotalLoad;
    var r, w := RulesOf(cfg, known), Reached(cfg, known, w0, evs);
    ReachedOk(cfg, known, w0, evs);
    InitialAccount(r, w0, tight);
    RulesServe(cfg, known);
    X.AccountRun(cfg, r, w0, evs, tight);
    EntryKeys(r, w.a, w.m, w.s);
    A.ArenaFacts(r, w.a, w.m, w.s);
    forall oid | oid in w.s.entries
      ensures Evict(cfg, w.s, oid).result.Ok? && Delete(cfg, w.s, oid).result.Ok?
    {
      X.EvictKeeps(cfg, r, w.a, w.m, w.s, oid, tight);
      X.DeleteKeeps(cfg, r, w.a, w.m, w.s, oid, tight);
    }
    if w.s.entries == map[] {
      assert Loads(w.s.entries) == map[];
      assert TotalLoad(w.s.entries) == multiset{} by { NoEntriesNoLoad(w.s.entries); }
      NothingReferenced(r.content, w.s.arena);
    }
  }

  lemma InitialAccount(r: Rules, w: World, tight: bool)
    requires Initial(w)
    ensures X.AccountOk(r, w, tight)
  {
    hide StateOk;
    InitialOk(r, w);
    assert Loads(w.s.entries) == map[];
  }

  lemma NoEntriesNoLoad(entries: map<Digest, Entry>)
    requires entries == map[]
    ensures TotalLoad(entries) == multiset{}
  {
    assert Loads(entries) == map[];
  }
}

/**
 * The invariant of the runtime, relative to two abstract maps: `a`, the write-once map of registered
 * objects, and `m`, the objects that the manifest files on disk describe.
 */
module CacheInvariant {
  import opened Prelude
  import opened Storage
  import opened Accounting
  import opened BlockArena
  import opened Sums
  import opened Shapes
  import opened Manifests
  import opened CacheSpec
  import opened CacheLoads
  import opened DiskSafety
  import P = Planner

  /** The manifest of an object. */
  function MetaBy(r: Rules, oid: Digest, obj: Object): Meta {
    Meta(ToHex(oid), obj.address.namespace, obj.address.key, obj.address.generation, obj.compat,
         r.length(obj), r.count(obj), obj.createdNs, r.blocks(obj))
  }

  /** What a well-formed object gives: an accepted chunking that describes its payload, and a manifest of it. */
  ghost predicate Usable(cfg: Config, r: Rules, oid: Digest, obj: Object) {
    var bs := r.blocks(obj);
    && oid == cfg.name(obj.address)
    && |obj.payload| < TWO_64 && r.length(obj) == |obj.payload|
    && Chunk(cfg.content, obj.payload, cfg.blockSize) == Ok(bs)
    && Accepts(bs, |obj.payload|) && Inside(obj.payload, bs) && Positive(bs)
    && StretchesKnown(obj.payload, bs, r.known)
    && (forall b :: b in bs ==> Describes(cfg.content, obj.payload, b))
    && Numel(obj.compat.dims) == Ok(r.count(obj))
    && r.text(oid, obj) == cfg.codec.write(MetaBy(r, oid, obj))
    && (cfg.codec.read(r.text(oid, obj)).Ok? <==> r.readable(obj))
    && (r.readable(obj) ==> cfg.codec.read(r.text(oid, obj)) == Ok(MetaBy(r, oid, obj)))
  }

  /**
   * The standing assumptions of a run: no digest collision among the blocks met, and rules that fit the configuration.
   */
  ghost predicate Serves(cfg: Config, r: Rules) {
    && r.content == cfg.content && r.hasStore == cfg.hasStore && r.identify == cfg.identify
    && NoCollision(r.content, r.known)
    && forall oid, obj :: r.good(oid, obj) ==> Usable(cfg, r, oid, obj)
  }

  // ---- The parts of the invariant ----------------------------------------------------------

  ghost predicate DistinctTiers(ps: seq<Placement>) {
    forall i, j :: 0 <= i < j < |ps| ==> TierOf(ps[i]) != TierOf(ps[j])
  }

  ghost predicate PlacementOk(hasStore: bool, backends: set<BackendId>, obj: Object, blocks: seq<BlockRef>,
                              p: Placement) {
    match p
    case InHost(refs) => refs == blocks
    case OnDevice(b, data) => data == obj.payload && b in backends
    case OnDisk => hasStore
  }

  /**
   * The entry's metadata is the object's; each placement holds the object's bytes. No operation quarantines an entry.
   */
  ghost predicate EntryOk(r: Rules, backends: set<BackendId>, oid: Digest, obj: Object, e: Entry) {
    && r.good(oid, obj)
    && e.address == obj.address && e.compat == obj.compat && e.createdNs == obj.createdNs
    && e.compatId == r.identify(obj.compat)
    && e.byteLen == r.length(obj) && e.numel == r.count(obj) && e.blocks == r.blocks(obj) && !e.quarantined
    && DistinctTiers(e.placements)
    && forall i :: 0 <= i < |e.placements| ==> PlacementOk(r.hasStore, backends, obj, e.blocks, e.placements[i])
  }

  ghost predicate EntriesOk(r: Rules, a: Registry, entries: map<Digest, Entry>, backends: set<BackendId>) {
    && entries.Keys == a.Keys
    && forall oid :: oid in entries ==> EntryOk(r, backends, oid, a[oid], entries[oid])
  }

  /** Each host block has at least as many references as placements use it. */
  ghost predicate HostOk(c: Content, known: iset<Bytes>, arena: Arena, total: multiset<Item>) {
    && Consistent(c, arena) && Within(arena, known)
    && forall h :: total[HostRef(h)] <= RefCount(arena, h)
  }

  /** Device bytes in use are exactly those of the placements. */
  ghost predicate DeviceOk(backends: map<BackendId, Backend>, accelUsed: nat, total: multiset<Item>) {
    && accelUsed == total[AnyDeviceByte]
    && forall b :: b in backends ==> backends[b].inUse == total[DeviceByte(b)]
  }

  function CountIn(refs: map<Digest, nat>, h: Digest): nat {
    if h in refs then refs[h] else 0
  }

  function FileSizes(refs: map<Digest, nat>, d: Disk): map<Digest, nat> {
    map h | h in refs :: if BlockFile(h) in d then |d[BlockFile(h)]| else 0
  }

  /** Storage references are exactly those of the placements; their files exist; their sizes add up. */
  ghost predicate StoreOk(refs: map<Digest, nat>, used: nat, d: Disk, total: multiset<Item>) {
    && (forall h :: CountIn(refs, h) == total[DiskRef(h)])
    && (forall h :: h in refs ==> refs[h] >= 1 && BlockFile(h) in d)
    && used == SumValues(FileSizes(refs, d))
  }

  /** A persistently placed entry's manifest describes it. */
  ghost predicate Linked(a: Registry, m: Registry, entries: map<Digest, Entry>) {
    forall oid :: oid in entries && oid in a && OnDisk in entries[oid].placements ==> oid in m && m[oid] == a[oid]
  }

  ghost predicate BudgetsOk(s: State) {
    Sound(s.host) && s.host.reserved == 0 && Sound(s.storage) && s.storage.reserved == 0
  }

  ghost predicate StateOk(r: Rules, a: Registry, m: Registry, s: State) {
    && EntriesOk(r, a, s.entries, s.backends.Keys)
    && HostOk(r.content, r.known, s.arena, TotalLoad(s.entries))
    && DeviceOk(s.backends, s.accelUsed, TotalLoad(s.entries))
    && StoreOk(s.diskRefs, s.storageUsed, s.disk, TotalLoad(s.entries))
    && DiskSound(r, m, s.disk)
    && Linked(a, m, s.entries)
    && BudgetsOk(s)
    && s.objectCount == |s.entries|
  }

  // ---- Materialization ---------------------------------------------------------------------

  lemma TaggedHas(blocks: seq<BlockRef>, onDisk: bool, b: BlockRef)
    requires b in blocks
    ensures Tagged(blocks, onDisk)[if onDisk then DiskRef(b.hash) else HostRef(b.hash)] >= 1
  {
    TaggedCounts(blocks, onDisk, if onDisk then DiskRef(b.hash) else HostRef(b.hash));
  }

  /** A host placement reassembles to the registered payload. */
  lemma HostYieldsPayload(cfg: Config, r: Rules, oid: Digest, obj: Object, arena: Arena, total: multiset<Item>)
    requires r.content == cfg.content && NoCollision(cfg.content, r.known) && Usable(cfg, r, oid, obj)
    requires HostOk(cfg.content, r.known, arena, total) && Tagged(r.blocks(obj), false) <= total
    ensures Reassemble(cfg.content, r.blocks(obj), r.length(obj), FromArena(arena)) == Ok(obj.payload)
  {
    var bs := r.blocks(obj);
    forall b | b in bs
      ensures FromArena(arena)(b.hash) == Ok(Stretch(obj.payload, b))
    {
      TaggedHas(bs, false, b);
      assert total[HostRef(b.hash)] >= 1;
      assert Stretch(obj.payload, b) in r.known && Describes(cfg.content, obj.payload, b);
      assert cfg.content.hash(arena.blocks[b.hash]) == b.hash && arena.blocks[b.hash] in r.known;
    }
    ReassembleInvertsChunk(cfg.content, obj.payload, cfg.blockSize, FromArena(arena));
  }

  /** A storage placement reassembles to the registered payload. */
  lemma DiskYieldsPayload(cfg: Config, r: Rules, oid: Digest, obj: Object, m: Registry, d: Disk)
    requires r.content == cfg.content && NoCollision(cfg.content, r.known) && Usable(cfg, r, oid, obj)
    requires DiskSound(r, m, d) && BlocksExist(d, r.blocks(obj))
    ensures Reassemble(cfg.content, r.blocks(obj), r.length(obj), FromDisk(cfg.content, d)) == Ok(obj.payload)
  {
    var bs := r.blocks(obj);
    forall b | b in bs
      ensures FromDisk(cfg.content, d)(b.hash) == Ok(Stretch(obj.payload, b))
    {
      assert BlockFile(b.hash) in d;
      assert Stretch(obj.payload, b) in r.known && Describes(cfg.content, obj.payload, b);
      assert cfg.content.hash(d[BlockFile(b.hash)]) == b.hash && d[BlockFile(b.hash)] in r.known;
    }
    ReassembleInvertsChunk(cfg.content, obj.payload, cfg.blockSize, FromDisk(cfg.content, d));
  }

  /** A placement on disk keeps all the blocks of its entry there. */
  lemma DiskBlocksExist(entries: map<Digest, Entry>, oid: Digest, i: nat, refs: map<Digest, nat>, used: nat, d: Disk)
    requires oid in entries && i < |entries[oid].placements| && entries[oid].placements[i] == OnDisk
    requires StoreOk(refs, used, d, TotalLoad(entries))
    ensures BlocksExist(d, entries[oid].blocks)
  {
    TotalAboveEntry(entries, oid, i);
    forall b | b in entries[oid].blocks
      ensures BlockFile(b.hash) in d
    {
      TaggedHas(entries[oid].blocks, true, b);
      assert TotalLoad(entries)[DiskRef(b.hash)] >= 1;
      assert CountIn(refs, b.hash) >= 1;
    }
  }

  lemma OnlyPlacementOfTier(ps: seq<Placement>, i: nat)
    requires DistinctTiers(ps) && i < |ps|
    ensures IndexOf(ps, TierOf(ps[i])) == i
  {
    var j := IndexOf(ps, TierOf(ps[i]));
    assert j <= i;
  }

  lemma DevicePlacementYields(cfg: Config, r: Rules, s: State, oid: Digest, obj: Object, p: Placement)
    requires oid in s.entries && EntryOk(r, s.backends.Keys, oid, obj, s.entries[oid]) && r.length(obj) == |obj.payload|
    requires p.OnDevice? && PlacementOk(r.hasStore, s.backends.Keys, obj, s.entries[oid].blocks, p)
    ensures ReadDevice(s, s.entries[oid], p) == Ok(obj.payload)
  {
  }

  lemma HostPlacementYields(cfg: Config, r: Rules, s: State, oid: Digest, obj: Object, i: nat)
    requires Serves(cfg, r) && HostOk(cfg.content, r.known, s.arena, TotalLoad(s.entries))
    requires oid in s.entries && EntryOk(r, s.backends.Keys, oid, obj, s.entries[oid])
    requires i < |s.entries[oid].placements| && s.entries[oid].placements[i].InHost?
    ensures MaterializeFrom(cfg, s, oid, P.Host) == Ok(obj.payload)
  {
    TotalAboveEntry(s.entries, oid, i);
    HostYieldsPayload(cfg, r, oid, obj, s.arena, TotalLoad(s.entries));
  }

  lemma DiskPlacementYields(cfg: Config, r: Rules, m: Registry, s: State, oid: Digest, obj: Object, i: nat)
    requires Serves(cfg, r) && StoreOk(s.diskRefs, s.storageUsed, s.disk, TotalLoad(s.entries))
    requires DiskSound(r, m, s.disk)
    requires oid in s.entries && EntryOk(r, s.backends.Keys, oid, obj, s.entries[oid])
    requires i < |s.entries[oid].placements| && s.entries[oid].placements[i].OnDisk?
    ensures MaterializeFrom(cfg, s, oid, P.Persistent) == Ok(obj.payload)
  {
    DiskBlocksExist(s.entries, oid, i, s.diskRefs, s.storageUsed, s.disk);
    DiskYieldsPayload(cfg, r, oid, obj, m, s.disk);
  }

  /** Every tier that holds the entry yields the registered payload. */
  lemma EveryPlacementYieldsPayload(cfg: Config, r: Rules, a: Registry, m: Registry, s: State, oid: Digest, i: nat)
    requires Serves(cfg, r) && StateOk(r, a, m, s) && oid in s.entries && i < |s.entries[oid].placements|
    ensures MaterializeFrom(cfg, s, oid, TierOf(s.entries[oid].placements[i])) == Ok(a[oid].payload)
  {
    var e := s.entries[oid];
    assert EntryOk(r, s.backends.Keys, oid, a[oid], e);
    assert PlacementOk(r.hasStore, s.backends.Keys, a[oid], e.blocks, e.placements[i]);
    match e.placements[i]
    case InHost(_) =>
      HostPlacementYields(cfg, r, s, oid, a[oid], i);
    case OnDisk =>
      DiskPlacementYields(cfg, r, m, s, oid, a[oid], i);
    case OnDevice(_, _) =>
      OnlyPlacementOfTier(e.placements, i);
      assert Usable(cfg, r, oid, a[oid]);
      DevicePlacementYields(cfg, r, s, oid, a[oid], e.placements[i]);
  }

  /** Where the preferred copy is. */
  function Preferred(e: Entry): (i: nat)
    ensures i < |e.placements| || e.placements == []
  {
    var h, i, d := IndexOf(e.placements, P.Host), FirstDevice(e.placements), IndexOf(e.placements, P.Persistent);
    assert e.placements != [] ==> h == 0 || i == 0 || d == 0 || h < |e.placements| || i < |e.placements|;
    if h < |e.placements| then h else if i < |e.placements| then i else d
  }

  lemma MaterializeIsFromPreferred(cfg: Config, s: State, oid: Digest)
    requires oid in s.entries && (OnDisk in s.entries[oid].placements ==> cfg.hasStore)
    requires DistinctTiers(s.entries[oid].placements)
    ensures var e := s.entries[oid];
      Materialize(cfg, s, oid) == if e.placements == [] then Err(Error.Reconstruct)
                                  else MaterializeFrom(cfg, s, oid, TierOf(e.placements[Preferred(e)]))
  {
    var e := s.entries[oid];
    if e.placements != [] {
      OnlyPlacementOfTier(e.placements, Preferred(e));
    }
  }

  /** The preferred placement yields the registered payload; without a placement there is nothing to yield. */
  lemma MaterializeYieldsPayload(cfg: Config, r: Rules, a: Registry, m: Registry, s: State, oid: Digest)
    requires Serves(cfg, r) && StateOk(r, a, m, s) && oid in s.entries
    ensures Materialize(cfg, s, oid) == if s.entries[oid].placements == [] then Err(Error.Reconstruct)
      else Ok(a[oid].payload)
  {
    hide Usable, Materialize, MaterializeFrom, Linked, DiskSound, HostOk, StoreOk, DeviceOk, DistinctTiers, NoCollision;
    var e := s.entries[oid];
    assert EntryOk(r, s.backends.Keys, oid, a[oid], e);
    if OnDisk in e.placements {
      var i :| 0 <= i < |e.placements| && e.placements[i] == OnDisk;
      assert PlacementOk(r.hasStore, s.backends.Keys, a[oid], e.blocks, e.placements[i]);
    }
    MaterializeIsFromPreferred(cfg, s, oid);
    if e.placements != [] {
      EveryPlacementYieldsPayload(cfg, r, a, m, s, oid, Preferred(e));
    }
  }

  lemma {:induction false} AllPlacementsAgree(cfg: Config, r: Rules, a: Registry, m: Registry, s: State, oid: Digest,
                                              i: nat)
    requires Serves(cfg, r) && StateOk(r, a, m, s) && oid in s.entries && i <= |s.entries[oid].placements|
    ensures AllAgree(cfg, s, oid, a[oid].payload, Tiers(s.entries[oid].placements[i..])) == Ok(())
    decreases |s.entries[oid].placements| - i
  {
    hide Serves, StateOk, MaterializeFrom;
    var ps := s.entries[oid].placements;
    if i < |ps| {
      EveryPlacementYieldsPayload(cfg, r, a, m, s, oid, i);
      AllPlacementsAgree(cfg, r, a, m, s, oid, i + 1);
      assert ps[i..][0] == ps[i] && ps[i..][1..] == ps[i + 1..];
    }
  }

  /** Verification never reports a disagreement: it succeeds whenever there is a copy to check. */
  lemma VerifySucceeds(cfg: Config, r: Rules, a: Registry, m: Registry, s: State, oid: Digest)
    requires Serves(cfg, r) && StateOk(r, a, m, s) && oid in s.entries
    ensures Verify(cfg, s, oid) == if s.entries[oid].placements == [] then Err(Error.Reconstruct) else Ok(())
  {
    hide Linked, DiskSound, HostOk, StoreOk, DeviceOk, DistinctTiers, Materialize, MaterializeFrom, PlacementOk;
    MaterializeYieldsPayload(cfg, r, a, m, s, oid);
    assert EntryOk(r, s.backends.Keys, oid, a[oid], s.entries[oid]);
    assert Usable(cfg, r, oid, a[oid]);
    AllPlacementsAgree(cfg, r, a, m, s, oid, 0);
    assert s.entries[oid].placements[0..] == s.entries[oid].placements;
  }

  lemma {:induction false} AgreeIff(cfg: Config, s: State, oid: Digest, bytes: Bytes, ps: seq<Placement>)
    ensures AllAgree(cfg, s, oid, bytes, Tiers(ps)).Ok? <==>
      forall i :: 0 <= i < |ps| ==> MaterializeFrom(cfg, s, oid, TierOf(ps[i])) == Ok(bytes)
  {
    hide MaterializeFrom;
    if ps != [] {
      AgreeIff(cfg, s, oid, bytes, ps[1..]);
      assert forall i :: 1 <= i < |ps| ==> ps[i] == ps[1..][i - 1];
    }
  }

  /**
   * In any state, valid or damaged: verification succeeds if and only if the preferred copy can be read, has the
   * length of the entry, and every tier that holds the object yields the very same bytes.
   */
  lemma VerifyAcceptsIff(cfg: Config, s: State, oid: Digest)
    ensures Verify(cfg, s, oid).Ok? <==>
      && oid in s.entries && Materialize(cfg, s, oid).Ok?
      && |Materialize(cfg, s, oid).value| == s.entries[oid].byteLen
      && var ps := s.entries[oid].placements;
         forall i :: 0 <= i < |ps| ==>
           MaterializeFrom(cfg, s, oid, TierOf(ps[i])) == Ok(Materialize(cfg, s, oid).value)
  {
    hide MaterializeFrom;
    if oid in s.entries && Materialize(cfg, s, oid).Ok? {
      AgreeIff(cfg, s, oid, Materialize(cfg, s, oid).value, s.entries[oid].placements);
    }
  }

  /** In any state, whatever a tier yields has the length of the entry. */
  lemma MaterializedLength(cfg: Config, s: State, oid: Digest, t: Tier)
    requires oid in s.entries && NoWrap(s.entries[oid].blocks)
    ensures Materialize(cfg, s, oid).Ok? ==> |Materialize(cfg, s, oid).value| == s.entries[oid].byteLen
    ensures MaterializeFrom(cfg, s, oid, t).Ok? ==> |MaterializeFrom(cfg, s, oid, t).value| == s.entries[oid].byteLen
  {
    hide Reassemble, FromArena, FromDisk;
    var e := s.entries[oid];
    var memory, files := FromArena(s.arena), FromDisk(cfg.content, s.disk);
    if Reassemble(cfg.content, e.blocks, e.byteLen, memory).Ok? {
      ReassembledIsChecked(cfg.content, e.blocks, e.byteLen, memory, 0);
    }
    if Reassemble(cfg.content, e.blocks, e.byteLen, files).Ok? {
      ReassembledIsChecked(cfg.content, e.blocks, e.byteLen, files, 0);
    }
  }

  // ---- Damaged storage ---------------------------------------------------------------------

  /** Reading blocks that may be missing or refused, but are never wrong, gives the payload or an error. */
  lemma NeverWrong(cfg: Config, payload: Bytes, get: Digest -> Result<Bytes>)
    requires |payload| < TWO_64 && Chunk(cfg.content, payload, cfg.blockSize).Ok?
    requires var bs := Chunk(cfg.content, payload, cfg.blockSize).value;
      forall b :: b in bs ==>
        b.offset + b.len <= |payload| && (get(b.hash).Ok? ==> get(b.hash).value == Stretch(payload, b))
    ensures var bs := Chunk(cfg.content, payload, cfg.blockSize).value;
      Reassemble(cfg.content, bs, |payload|, get).Ok? ==>
        Reassemble(cfg.content, bs, |payload|, get) == Ok(payload)
  {
    hide Chunk, Accepts;
    var bs := Chunk(cfg.content, payload, cfg.blockSize).value;
    if Reassemble(cfg.content, bs, |payload|, get).Ok? {
      forall b | b in bs
        ensures get(b.hash) == Ok(Stretch(payload, b))
      {
        var j :| 0 <= j < |bs| && bs[j] == b;
        GatheredAreGood(cfg.content, bs, get, j);
      }
      ReassembleInvertsChunk(cfg.content, payload, cfg.blockSize, get);
    }
  }

  lemma DamagedBlocks(cfg: Config, r: Rules, oid: Digest, obj: Object, d: Disk)
    requires r.content == cfg.content && NoCollision(cfg.content, r.known) && Usable(cfg, r, oid, obj)
    requires forall h: Digest :: BlockFile(h) in d ==> d[BlockFile(h)] in r.known
    ensures var x := Reassemble(cfg.content, r.blocks(obj), r.length(obj), FromDisk(cfg.content, d));
      x.Ok? ==> x == Ok(obj.payload)
  {
    hide Reassemble, Chunk;
    var get := FromDisk(cfg.content, d);
    forall b | b in r.blocks(obj) && get(b.hash).Ok?
      ensures get(b.hash).value == Stretch(obj.payload, b)
    {
      assert Stretch(obj.payload, b) in r.known && Describes(cfg.content, obj.payload, b);
      assert d[BlockFile(b.hash)] in r.known;
    }
    NeverWrong(cfg, obj.payload, get);
  }

  /**
   * Whatever happened to the files: reading an object from storage gives its registered bytes or an error, never other
   * bytes, because every block is checked against the digest it is named by.
   */
  lemma DamagedStorageIsNeverServed(cfg: Config, r: Rules, a: Registry, m: Registry, s: State, oid: Digest, d: Disk)
    requires Serves(cfg, r) && StateOk(r, a, m, s) && oid in s.entries
    requires forall h: Digest :: BlockFile(h) in d ==> d[BlockFile(h)] in r.known
    ensures var x := MaterializeFrom(cfg, s.(disk := d), oid, P.Persistent); x.Ok? ==> x == Ok(a[oid].payload)
  {
    hide HostOk, StoreOk, DeviceOk, DiskSound, Linked, Reassemble, Usable, NoCollision, FromDisk, DistinctTiers;
    assert EntryOk(r, s.backends.Keys, oid, a[oid], s.entries[oid]);
    DamagedBlocks(cfg, r, oid, a[oid], d);
  }
}

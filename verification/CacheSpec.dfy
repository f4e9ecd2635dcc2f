/**
 * The tiered runtime as a state and its operations, each a function from the state to its effect:
 * the new state, the file-system steps it took in order, and the result it returned.
 */
module CacheSpec {
  import opened Prelude
  import opened Storage
  import opened Accounting
  import opened BlockArena
  import opened Shapes
  import opened Compat
  import opened Manifests
  import Ev = Eviction
  import P = Planner

  type Tier = P.Tier
  type BackendId = P.BackendId

  // ---- Configuration -----------------------------------------------------------------------

  /** How manifests are turned into file contents and back. */
  datatype ManifestCodec = ManifestCodec(write: Meta -> Bytes, read: Bytes -> Result<Meta>)

  datatype Admission = Admission(maxObjectBytes: u64, minReuseNs: u64, valuePerByteNs: u64, maxObjects: Option<u64>,
    minReconstructNs: u64)

  /** The identity functions are parameters here; `CacheTheorems.Wired` ties them to the canonical encodings. */
  datatype Config = Config(content: Content, codec: ManifestCodec, name: Address -> Digest,
    identify: CompatKey -> Digest,
                           blockSize: nat, hasStore: bool, admission: Admission, policy: Ev.Policy, cost: P.CostModel)

  /** The admission policy without its capacity part. The object counter it reads is never set, so it is zero. */
  predicate Admits(cfg: Config, bytes: u64) {
    var value := P.ReconstructCost(cfg.cost, bytes);
    && bytes <= cfg.admission.maxObjectBytes
    && cfg.admission.minReuseNs <= value
    && cfg.admission.minReconstructNs <= value
    && P.Clamp(bytes * cfg.admission.valuePerByteNs) <= value
    && cfg.admission.maxObjects != Some(0)
  }

  // ---- State -------------------------------------------------------------------------------

  datatype Placement = InHost(refs: seq<BlockRef>) | OnDevice(backend: BackendId, data: Bytes) | OnDisk

  function TierOf(p: Placement): Tier {
    match p
    case InHost(_) => P.Host
    case OnDevice(b, _) => P.Accelerator(b)
    case OnDisk => P.Persistent
  }

  datatype Entry = Entry(address: Address, compat: CompatKey, compatId: Digest, byteLen: u64, numel: u64,
                         blocks: seq<BlockRef>, placements: seq<Placement>,
                         createdNs: u64, lastUseNs: u64, reuseCount: u64, durable: bool, quarantined: bool)

  datatype Backend = Backend(capacity: u64, inUse: nat)

  datatype Path = BlockFile(hash: Digest) | ManifestFile(oid: Digest) | Temp(final: Path)

  type Disk = map<Path, Bytes>

  datatype State = State(entries: map<Digest, Entry>, arena: Arena, diskRefs: map<Digest, nat>, storageUsed: nat,
    accelUsed: nat,
                         host: Budget, storage: Budget, objectCount: nat, backends: map<BackendId, Backend>, disk: Disk)

  // ---- The file system ---------------------------------------------------------------------

  datatype DiskOp = Create(path: Path) | Fill(path: Path, data: Bytes) | Remove(path: Path) | Rename(from: Path,
    to: Path)

  function Apply(d: Disk, op: DiskOp): Disk {
    match op
    case Create(p) => d[p := []]
    case Fill(p, data) => d[p := data]
    case Remove(p) => d - {p}
    case Rename(from, to) => if from in d then (d - {from})[to := d[from]] else d
  }

  function ApplyAll(d: Disk, ops: seq<DiskOp>): Disk
    decreases |ops|
  {
    if ops == [] then d else ApplyAll(Apply(d, ops[0]), ops[1..])
  }

  /** Write a sibling temporary file, flush it, drop a file already there, rename into place. */
  function AtomicWrite(d: Disk, path: Path, data: Bytes): seq<DiskOp> {
    [Create(Temp(path)), Fill(Temp(path), data)] + (if path in d then [Remove(path)]
      else []) + [Rename(Temp(path), path)]
  }

  function RemoveIfThere(d: Disk, path: Path): seq<DiskOp> {
    if path in d then [Remove(path)] else []
  }

  // ---- Effects -----------------------------------------------------------------------------

  datatype Effect<T> = Effect(state: State, ops: seq<DiskOp>, result: Result<T>)

  function IndexOf(ps: seq<Placement>, t: Tier): (i: nat)
    ensures i <= |ps|
    ensures i < |ps| ==> TierOf(ps[i]) == t
    ensures forall j :: 0 <= j < i ==> TierOf(ps[j]) != t
  {
    if ps == [] || TierOf(ps[0]) == t then 0 else 1 + IndexOf(ps[1..], t)
  }

  predicate HasTier(e: Entry, t: Tier) {
    IndexOf(e.placements, t) < |e.placements|
  }

  function Tiers(ps: seq<Placement>): seq<Tier> {
    if ps == [] then [] else [TierOf(ps[0])] + Tiers(ps[1..])
  }

  // ---- Materialization ---------------------------------------------------------------------

  function FromArena(a: Arena): Digest -> Result<Bytes> {
    h => if h in a.blocks then Ok(a.blocks[h]) else Err(Error.Reconstruct)
  }

  /** Reading a block file checks its content against its name. */
  function FromDisk(c: Content, d: Disk): Digest -> Result<Bytes> {
    h => if BlockFile(h) !in d then Err(Error.Reconstruct)
         else if c.hash(d[BlockFile(h)]) != h then Err(Error.Persistence)
         else Ok(d[BlockFile(h)])
  }

  function FirstDevice(ps: seq<Placement>): (i: nat)
    ensures i <= |ps| && (i < |ps| ==> ps[i].OnDevice?)
    ensures forall j :: 0 <= j < i ==> !ps[j].OnDevice?
  {
    if ps == [] || ps[0].OnDevice? then 0 else 1 + FirstDevice(ps[1..])
  }

  function ReadDevice(s: State, e: Entry, p: Placement): Result<Bytes>
    requires p.OnDevice?
  {
    if p.backend !in s.backends || |p.data| != e.byteLen then Err(Error.Backend) else Ok(p.data)
  }

  /** The payload from the best placement: host, then a device, then storage. */
  function Materialize(cfg: Config, s: State, oid: Digest): Result<Bytes> {
    if oid !in s.entries then Err(NotFound)
    else
      var e := s.entries[oid];
      var i := FirstDevice(e.placements);
      if HasTier(e, P.Host) then Reassemble(cfg.content, e.blocks, e.byteLen, FromArena(s.arena))
      else if i < |e.placements| then ReadDevice(s, e, e.placements[i])
      else if HasTier(e, P.Persistent) && cfg.hasStore then
        Reassemble(cfg.content, e.blocks, e.byteLen, FromDisk(cfg.content, s.disk))
      else Err(Error.Reconstruct)
  }

  /** The payload from one particular tier. */
  function MaterializeFrom(cfg: Config, s: State, oid: Digest, t: Tier): Result<Bytes> {
    if oid !in s.entries then Err(NotFound)
    else
      var e := s.entries[oid];
      var i := IndexOf(e.placements, t);
      match t
      case Host => Reassemble(cfg.content, e.blocks, e.byteLen, FromArena(s.arena))
      case Persistent =>
        if cfg.hasStore then Reassemble(cfg.content, e.blocks, e.byteLen, FromDisk(cfg.content, s.disk))
          else Err(Error.Persistence)
      case Accelerator(_) =>
        if i == |e.placements| then Err(NotFound) else ReadDevice(s, e, e.placements[i])
  }

  // ---- Adding placements -------------------------------------------------------------------

  function Push(s: State, oid: Digest, p: Placement): State
    requires oid in s.entries
  {
    var e := s.entries[oid];
    s.(entries := s.entries[oid := e.(placements := e.placements + [p])])
  }

  lemma ChunkInRange(c: Content, payload: Bytes, size: nat)
    requires |payload| < TWO_64 && Chunk(c, payload, size).Ok?
    ensures Inside(payload, Chunk(c, payload, size).value)
  {
    ChunkIsAccepted(c, payload, size);
  }

  /** Reserve the charge, acquire every block, commit the charge. */
  function StoreBlocks(cfg: Config, s: State, payload: Bytes, blocks: seq<BlockRef>, charge: nat): (State, bool)
    requires Inside(payload, blocks)
  {
    var (reserved, ok) := Reserve(s.host, charge);
    if !ok then (s, false)
    else
      var (committed, ok) := CommitReserve(reserved, charge);
      (s.(arena := AcquireAll(cfg.content, s.arena, payload, blocks), host := committed), ok)
  }

  function AddHost(cfg: Config, s: State, oid: Digest, bytes: Bytes): Effect<()>
    requires oid in s.entries && |bytes| < TWO_64
  {
    match Chunk(cfg.content, bytes, cfg.blockSize)
    case Err(x) => Effect(s, [], Err(x))
    case Ok(blocks) =>
      var charge := Charged(s.arena.blocks.Keys, blocks);
      if !Accepts(blocks, |bytes|) then Effect(s, [], Err(Error.Geometry))
      else if charge > Free(s.host) then Effect(s, [], Err(AdmissionRejected))
      else
        ChunkInRange(cfg.content, bytes, cfg.blockSize);
        var (s1, ok) := StoreBlocks(cfg, s, bytes, blocks, charge);
        if ok then Effect(Push(s1, oid, InHost(blocks)), [], Ok(())) else Effect(s1, [], Err(Error.Accounting))
  }

  function AddDevice(s: State, oid: Digest, b: BackendId, bytes: Bytes): Effect<()>
    requires oid in s.entries
  {
    if b !in s.backends then Effect(s, [], Err(Error.Backend))
    else
      var after := s.backends[b].inUse + |bytes|;
      if after > s.backends[b].capacity then Effect(s, [], Err(Error.Backend))
      else
        var s1 := s.(backends := s.backends[b := s.backends[b].(inUse := after)], accelUsed := s.accelUsed + |bytes|);
        Effect(Push(s1, oid, OnDevice(b, bytes)), [], Ok(()))
  }

  datatype PutState = PutState(refs: map<Digest, nat>, used: nat, ops: seq<DiskOp>, ok: bool)

  /** Count one storage reference to a block, writing its file if the block is not referenced yet. */
  function PutOne(refs: map<Digest, nat>, used: nat, d: Disk, h: Digest, data: Bytes): PutState {
    if h in refs then PutState(refs[h := refs[h] + 1], used, [], true)
    else if BlockFile(h) !in d then PutState(refs[h := 1], used + |data|, AtomicWrite(d, BlockFile(h), data), true)
    else if d[BlockFile(h)] == data then PutState(refs[h := 1], used + |data|, [], true)
    else PutState(refs, used, [], false)
  }

  function PutBlocks(refs: map<Digest, nat>, used: nat, d: Disk, payload: Bytes, blocks: seq<BlockRef>): PutState
    requires Inside(payload, blocks)
    decreases |blocks|
  {
    if blocks == [] then PutState(refs, used, [], true)
    else
      var one := PutOne(refs, used, d, blocks[0].hash, Stretch(payload, blocks[0]));
      if !one.ok then one
      else
        var p := PutBlocks(one.refs, one.used, ApplyAll(d, one.ops), payload, blocks[1..]);
        p.(ops := one.ops + p.ops)
  }

  /** The record a persisted object leaves on disk. */
  function MetaOf(oid: Digest, e: Entry, blocks: seq<BlockRef>, numel: u64): Meta {
    Meta(ToHex(oid), e.address.namespace, e.address.key, e.address.generation, e.compat, e.byteLen, numel, e.createdNs,
      blocks)
  }

  function AddDisk(cfg: Config, s: State, oid: Digest, bytes: Bytes): Effect<()>
    requires oid in s.entries && |bytes| < TWO_64
  {
    if !cfg.hasStore then Effect(s, [], Err(Error.Persistence))
    else
      match Chunk(cfg.content, bytes, cfg.blockSize)
      case Err(x) => Effect(s, [], Err(x))
      case Ok(blocks) =>
        var e := s.entries[oid];
        var charge := Charged(s.diskRefs.Keys, blocks);
        var (reserved, ok) := Reserve(s.storage, charge);
        if !Accepts(blocks, |bytes|) then Effect(s, [], Err(Error.Geometry))
        else if charge > Free(s.storage) then Effect(s, [], Err(AdmissionRejected))
        else if !ok then Effect(s, [], Err(Error.Accounting))
        else
          ChunkInRange(cfg.content, bytes, cfg.blockSize);
          var put := PutBlocks(s.diskRefs, s.storageUsed, s.disk, bytes, blocks);
          var d1 := ApplyAll(s.disk, put.ops);
          var s1 := s.(diskRefs := put.refs, storageUsed := put.used, storage := reserved, disk := d1);
          if !put.ok then Effect(s1, put.ops, Err(Error.Persistence))
          else
            var (committed, ok) := CommitReserve(reserved, charge);
            var s2 := s1.(storage := committed);
            var numel := Numel(e.compat.dims);
            if !ok then Effect(s2, put.ops, Err(Error.Accounting))
            else if numel.Err? then Effect(s2, put.ops, Err(Error.Geometry))
            else
              var ops := AtomicWrite(d1, ManifestFile(oid), cfg.codec.write(MetaOf(oid, e, blocks, numel.value)));
              Effect(Push(s2.(disk := ApplyAll(d1, ops)), oid, OnDisk), put.ops + ops, Ok(()))
  }

  function AddPlacement(cfg: Config, s: State, oid: Digest, t: Tier, bytes: Bytes): Effect<()> {
    if oid !in s.entries then Effect(s, [], Err(NotFound))
    else if |bytes| != s.entries[oid].byteLen then Effect(s, [], Err(Integrity))
    else
      match t
      case Host => AddHost(cfg, s, oid, bytes)
      case Accelerator(b) => AddDevice(s, oid, b, bytes)
      case Persistent => AddDisk(cfg, s, oid, bytes)
  }

  // ---- Removing placements -----------------------------------------------------------------

  function Without<T>(s: seq<T>, i: nat): seq<T>
    requires i < |s|
  {
    s[..i] + s[i + 1..]
  }

  datatype DropState = DropState(refs: map<Digest, nat>, used: nat, ops: seq<DiskOp>)

  /** Give back one storage reference to a block, deleting its file with the last one. */
  function DropOne(refs: map<Digest, nat>, used: nat, d: Disk, h: Digest, len: nat): DropState {
    if h !in refs then DropState(refs, used, [])
    else if refs[h] > 1 then DropState(refs[h := refs[h] - 1], used, [])
    else DropState(refs - {h}, SatSub(used, len), RemoveIfThere(d, BlockFile(h)))
  }

  function DropBlocks(refs: map<Digest, nat>, used: nat, d: Disk, blocks: seq<BlockRef>): DropState
    decreases |blocks|
  {
    if blocks == [] then DropState(refs, used, [])
    else
      var one := DropOne(refs, used, d, blocks[0].hash, blocks[0].len);
      var q := DropBlocks(one.refs, one.used, ApplyAll(d, one.ops), blocks[1..]);
      q.(ops := one.ops + q.ops)
  }

  function RemoveFromDisk(cfg: Config, s: State, oid: Digest, blocks: seq<BlockRef>): Effect<()> {
    var drop := DropBlocks(s.diskRefs, s.storageUsed, if cfg.hasStore then s.disk else map[], blocks);
    var s1 := s.(diskRefs := drop.refs, storageUsed := drop.used);
    if !cfg.hasStore then Effect(s1, [], Ok(()))
    else
      var d1 := ApplyAll(s.disk, drop.ops);
      var ops := RemoveIfThere(d1, ManifestFile(oid));
      Effect(s1.(disk := ApplyAll(d1, ops)), drop.ops + ops, Ok(()))
  }

  function RemoveFromDevice(s: State, b: BackendId, n: nat): Effect<()> {
    if b !in s.backends then Effect(s, [], Err(Error.Backend))
    else Effect(s.(backends := s.backends[b := s.backends[b].(inUse := SatSub(s.backends[b].inUse, n))],
                   accelUsed := SatSub(s.accelUsed, n)), [], Ok(()))
  }

  function RemovePlacement(cfg: Config, s: State, oid: Digest, t: Tier): Effect<()> {
    if oid !in s.entries || !HasTier(s.entries[oid], t) then Effect(s, [], Err(Error.Residency))
    else
      var e := s.entries[oid];
      var i := IndexOf(e.placements, t);
      var s1 := s.(entries := s.entries[oid := e.(placements := Without(e.placements, i))]);
      match e.placements[i]
      case InHost(refs) =>
        var (a, h, ok) := ReleaseAll(s.arena, s.host, refs);
        Effect(s1.(arena := a, host := h), [], if ok then Ok(()) else Err(Error.Accounting))
      case OnDevice(b, data) => RemoveFromDevice(s1, b, |data|)
      case OnDisk => RemoveFromDisk(cfg, s1, oid, e.blocks)
  }

  /** Remove several placements; a strict removal stops at the first failure, a lenient one ignores failures. */
  function RemoveTiers(cfg: Config, s: State, oid: Digest, tiers: seq<Tier>, strict: bool): Effect<()>
    decreases |tiers|
  {
    if tiers == [] then Effect(s, [], Ok(()))
    else
      var r := RemovePlacement(cfg, s, oid, tiers[0]);
      if strict && r.result.Err? then r
      else
        var rest := RemoveTiers(cfg, r.state, oid, tiers[1..], strict);
        Effect(rest.state, r.ops + rest.ops, rest.result)
  }

  function Volatile(tiers: seq<Tier>): seq<Tier> {
    if tiers == [] then []
    else (if tiers[0] == P.Persistent then [] else [tiers[0]]) + Volatile(tiers[1..])
  }

  // ---- Eviction ----------------------------------------------------------------------------

  datatype Goal = FreeAtLeast(n: nat) | WithinCapacity

  predicate Reached(goal: Goal, s: State) {
    match goal
    case FreeAtLeast(n) => Free(s.host) >= n
    case WithinCapacity => s.host.used <= s.host.capacity
  }

  function Candidate(cfg: Config, now: u64, oid: Digest, e: Entry): Ev.Evictable {
    Ev.Evictable(oid, e.byteLen, e.reuseCount, SatSub(now, e.lastUseNs) / 1_000_000_000,
      P.ReconstructCost(cfg.cost, e.byteLen), 0, e.durable)
  }

  predicate Evicts(e: Entry) {
    HasTier(e, P.Host) && !e.durable
  }

  function Candidates(cfg: Config, now: u64, entries: map<Digest, Entry>): set<Ev.Evictable> {
    set oid | oid in entries && Evicts(entries[oid]) :: Candidate(cfg, now, oid, entries[oid])
  }

  function ScoreBy(cfg: Config): Ev.Score {
    e => Ev.KeepScore(cfg.policy, e)
  }

  /** Drop every volatile placement of one entry, ignoring failures. */
  function EvictOne(cfg: Config, s: State, oid: Digest): State {
    if oid in s.entries then RemoveTiers(cfg, s, oid, Volatile(Tiers(s.entries[oid].placements)), false).state else s
  }

  /** Evict in the given order until the goal is reached. */
  function EvictInOrder(cfg: Config, s: State, order: seq<Digest>, goal: Goal): State
    decreases |order|
  {
    if order == [] || Reached(goal, s) then s
    else EvictInOrder(cfg, EvictOne(cfg, s, order[0]), order[1..], goal)
  }

  function Ids(order: seq<Ev.Evictable>): seq<Digest>
  {
    if order == [] then []
    else (if |order[0].id| == 32 then [order[0].id] else []) + Ids(order[1..])
  }

  ghost function EvictionList(cfg: Config, now: u64, s: State): seq<Digest> {
    Ids(Ev.OrderOf(ScoreBy(cfg), Candidates(cfg, now, s.entries)))
  }

  ghost function EvictToFree(cfg: Config, s: State, needed: nat, now: u64): State {
    EvictInOrder(cfg, s, EvictionList(cfg, now, s), FreeAtLeast(needed))
  }

  ghost function EnforceCapacity(cfg: Config, s: State, now: u64): State {
    EvictInOrder(cfg, s, EvictionList(cfg, now, s), WithinCapacity)
  }

  // ---- Public operations -------------------------------------------------------------------

  function NewEntry(cfg: Config, a: Address, k: CompatKey, payload: Bytes, numel: u64, blocks: seq<BlockRef>, now: u64)
    : Entry
    requires |payload| < TWO_64
  {
    Entry(a, k, cfg.identify(k), |payload|, numel, blocks, [InHost(blocks)], now, now, 0, false, false)
  }

  /** What registration checks before it touches the state. */
  function CheckPayload(cfg: Config, k: CompatKey, payload: Bytes): (r: Result<(seq<BlockRef>, u64)>)
    ensures r.Ok? ==> |payload| < TWO_64 && Chunk(cfg.content, payload, cfg.blockSize) == Ok(r.value.0)
  {
    var byteLen :- ByteLen(k.dims, ElementSize(k.dtype));
    if byteLen != |payload| then Err(Error.Geometry)
    else
      var numel :- Numel(k.dims);
      var blocks :- Chunk(cfg.content, payload, cfg.blockSize);
      if Accepts(blocks, byteLen) then Ok((blocks, numel)) else Err(Error.Geometry)
  }

  ghost function Register(cfg: Config, s: State, a: Address, k: CompatKey, payload: Bytes, now: u64): Effect<Digest> {
    var oid := cfg.name(a);
    match CheckPayload(cfg, k, payload)
    case Err(x) => Effect(s, [], Err(x))
    case Ok((blocks, numel)) =>
      if oid in s.entries then Effect(s, [], Err(Exists))
      else if !Admits(cfg, |payload|) then Effect(s, [], Err(AdmissionRejected))
      else
        var charge := Charged(s.arena.blocks.Keys, blocks);
        var s1 := if charge > Free(s.host) then EvictToFree(cfg, s, charge, now) else s;
        if charge > Free(s1.host) then Effect(s1, [], Err(AdmissionRejected))
        else
          ChunkInRange(cfg.content, payload, cfg.blockSize);
          var (s2, ok) := StoreBlocks(cfg, s1, payload, blocks, charge);
          if !ok then Effect(s2, [], Err(Error.Accounting))
          else
            var e := NewEntry(cfg, a, k, payload, numel, blocks, now);
            var s3 := s2.(entries := s2.entries[oid := e], objectCount := s2.objectCount + 1);
            Effect(EnforceCapacity(cfg, s3, now), [], Ok(oid))
  }

  /** A lookup hit needs an equal compatibility identity; it counts the reuse. */
  function Lookup(cfg: Config, s: State, a: Address, k: CompatKey, now: u64): Effect<Digest> {
    var oid := cfg.name(a);
    if oid !in s.entries then Effect(s, [], Err(NotFound))
    else
      var e := s.entries[oid];
      if e.compatId != cfg.identify(k) then Effect(s, [], Err(Error.Compatibility))
      else Effect(s.(entries := s.entries[oid := e.(reuseCount := SatAdd(e.reuseCount, 1), lastUseNs := now)]), [],
        Ok(oid))
  }

  ghost function Restore(cfg: Config, s: State, oid: Digest, t: Tier, now: u64): Effect<Bytes> {
    if oid !in s.entries then Effect(s, [], Err(NotFound))
    else if s.entries[oid].quarantined then Effect(s, [], Err(Integrity))
    else
      match Materialize(cfg, s, oid)
      case Err(x) => Effect(s, [], Err(x))
      case Ok(bytes) =>
        if HasTier(s.entries[oid], t) then Effect(EnforceCapacity(cfg, s, now), [], Ok(bytes))
        else
          var r := AddPlacement(cfg, s, oid, t, bytes);
          if r.result.Err? then Effect(r.state, r.ops, Err(r.result.error))
          else Effect(EnforceCapacity(cfg, r.state, now), r.ops, Ok(bytes))
  }

  ghost function Promote(cfg: Config, s: State, oid: Digest, t: Tier, now: u64): Effect<()> {
    if oid !in s.entries then Effect(s, [], Err(NotFound))
    else if HasTier(s.entries[oid], t) then Effect(s, [], Ok(()))
    else
      var r := Restore(cfg, s, oid, t, now);
      Effect(r.state, r.ops, if r.result.Err? then Err(r.result.error) else Ok(()))
  }

  function NextLower(t: Tier): Result<Tier> {
    match t
    case Accelerator(_) => Ok(P.Host)
    case Host => Ok(P.Persistent)
    case Persistent => Err(Error.Residency)
  }

  /** Make sure the entry has a placement in the tier. */
  function Ensure(cfg: Config, s: State, oid: Digest, t: Tier): Effect<()> {
    if oid !in s.entries then Effect(s, [], Err(NotFound))
    else if HasTier(s.entries[oid], t) then Effect(s, [], Ok(()))
    else
      match Materialize(cfg, s, oid)
      case Err(x) => Effect(s, [], Err(x))
      case Ok(bytes) => AddPlacement(cfg, s, oid, t, bytes)
  }

  /** Copy to the next lower tier first, only then give up the faster copy. */
  function Demote(cfg: Config, s: State, oid: Digest, from: Tier): Effect<()> {
    if oid !in s.entries then Effect(s, [], Err(NotFound))
    else if !HasTier(s.entries[oid], from) then Effect(s, [], Err(Error.Residency))
    else
      match NextLower(from)
      case Err(x) => Effect(s, [], Err(x))
      case Ok(target) =>
        var r := Ensure(cfg, s, oid, target);
        if r.result.Err? then r
        else
          var q := RemovePlacement(cfg, r.state, oid, from);
          Effect(q.state, r.ops + q.ops, q.result)
  }

  function Persist(cfg: Config, s: State, oid: Digest): Effect<()> {
    var r := Ensure(cfg, s, oid, P.Persistent);
    if r.result.Err? then r
    else if oid !in r.state.entries then r
    else r.(state := r.state.(entries := r.state.entries[oid := r.state.entries[oid].(durable := true)]))
  }

  function Evict(cfg: Config, s: State, oid: Digest): Effect<()> {
    if oid !in s.entries then Effect(s, [], Err(NotFound))
    else RemoveTiers(cfg, s, oid, Volatile(Tiers(s.entries[oid].placements)), true)
  }

  function Delete(cfg: Config, s: State, oid: Digest): Effect<()> {
    if oid !in s.entries then Effect(s, [], Err(NotFound))
    else
      var r := RemoveTiers(cfg, s, oid, Tiers(s.entries[oid].placements), true);
      if r.result.Err? then r
      else
        var count := if oid in r.state.entries then SatSub(r.state.objectCount, 1) else r.state.objectCount;
        var ops := if cfg.hasStore then RemoveIfThere(r.state.disk, ManifestFile(oid)) else [];
        Effect(r.state.(entries := r.state.entries - {oid}, objectCount := count, disk := ApplyAll(r.state.disk, ops)),
          r.ops + ops, Ok(()))
  }

  /** Every placement must yield the same bytes as the preferred one. */
  function AllAgree(cfg: Config, s: State, oid: Digest, bytes: Bytes, tiers: seq<Tier>): Result<()> {
    if tiers == [] then Ok(())
    else
      var b :- MaterializeFrom(cfg, s, oid, tiers[0]);
      if b != bytes then Err(Integrity) else AllAgree(cfg, s, oid, bytes, tiers[1..])
  }

  function Verify(cfg: Config, s: State, oid: Digest): Result<()> {
    var bytes :- Materialize(cfg, s, oid);
    var e := s.entries[oid];
    if |bytes| != e.byteLen then Err(Integrity) else AllAgree(cfg, s, oid, bytes, Tiers(e.placements))
  }

  // ---- Opening -----------------------------------------------------------------------------

  /** Leftover temporary files are removed when the store is opened. */
  function Clean(d: Disk): Disk {
    map p | p in d && !p.Temp? :: d[p]
  }

  /** Count one storage reference per block of a recovered manifest. */
  function CountBlocks(refs: map<Digest, nat>, used: nat, blocks: seq<BlockRef>): (map<Digest, nat>, nat)
    decreases |blocks|
  {
    if blocks == [] then (refs, used)
    else
      var b := blocks[0];
      if b.hash in refs then CountBlocks(refs[b.hash := refs[b.hash] + 1], used, blocks[1..])
      else CountBlocks(refs[b.hash := 1], used + b.len, blocks[1..])
  }

  predicate BlocksExist(d: Disk, blocks: seq<BlockRef>) {
    forall b :: b in blocks ==> BlockFile(b.hash) in d
  }

  /** Admit one manifest if its name parses and all its blocks exist; otherwise skip it. */
  function RecoverOne(cfg: Config, s: State, m: Meta, now: u64): State {
    var oid := ObjectIdFromHex(m.objectId);
    if oid.Err? || !BlocksExist(s.disk, m.blocks) then s
    else
      var (refs, used) := CountBlocks(s.diskRefs, s.storageUsed, m.blocks);
      var e := Entry(Address(m.namespace, m.key, m.generation), m.compat, cfg.identify(m.compat), m.byteLen, m.numel,
                     m.blocks, [OnDisk], m.createdNs, now, 0, true, false);
      s.(diskRefs := refs, storageUsed := used, entries := s.entries[oid.value := e], objectCount := s.objectCount + 1)
  }

  /** Read the manifest files in the order the directory lists them, skipping what does not decode. */
  function RecoverAll(cfg: Config, s: State, listing: seq<Digest>, now: u64): State
    decreases |listing|
  {
    if listing == [] then s
    else
      var path := ManifestFile(listing[0]);
      var m := if path in s.disk then cfg.codec.read(s.disk[path]) else Err(Error.Persistence);
      RecoverAll(cfg, if m.Ok? then RecoverOne(cfg, s, m.value, now) else s, listing[1..], now)
  }

  function Fresh(d: Disk, hostCapacity: u64, storageCapacity: u64, backends: map<BackendId, Backend>): State {
    State(map[], EMPTY_ARENA, map[], 0, 0, Budget(hostCapacity, 0, 0), Budget(storageCapacity, 0, 0), 0, backends, d)
  }

  /** Open a cache over whatever is on disk. */
  function Open(cfg: Config, d: Disk, listing: seq<Digest>, hostCapacity: u64, storageCapacity: u64,
                backends: map<BackendId, Backend>, now: u64): State {
    if cfg.hasStore then RecoverAll(cfg, Fresh(Clean(d), hostCapacity, storageCapacity, backends), listing, now)
    else Fresh(d, hostCapacity, storageCapacity, backends)
  }
}

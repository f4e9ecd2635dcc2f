/**
 * A run that loses a persisted object: its strided layout does not suit its shape, which only reading a manifest
 * checks.
 */
module CacheLostLayout {
  import opened Prelude
  import opened Storage
  import opened Accounting
  import opened Shapes
  import opened Compat
  import opened CacheSpec
  import opened DiskSafety
  import opened CacheRecovery
  import opened CacheRuns
  import opened CacheCrashes
  import opened CacheTheorems
  import opened CacheWitnesses

  /** One element of one byte, with a stride of zero. */
  function ZeroStride(): CompatKey {
    CompatKey(None, None, None, None, 13, [1], Strided([0]), 0, None, None, 0, 0)
  }

  lemma ZeroStridePasses(cfg: Config, x: byte)
    requires cfg.blockSize == 1
    ensures CheckPayload(cfg, ZeroStride(), [x]).Ok? && !ValidLayout(ZeroStride().layout, ZeroStride().dims)
  {
    assert CheckedProduct(1, [1][1..]) == Ok(1);
    assert Numel([1]) == Ok(1) && ByteLen([1], 1) == Ok(1);
    var p: Bytes := [x];
    assert Chunk(cfg.content, p, 1).Ok?;
    ChunkIsAccepted(cfg.content, p, 1);
  }

  /** A row of bytes. */
  function Row(n: u64): CompatKey {
    CompatKey(None, None, None, None, 13, [n], RowMajor, 0, None, None, 0, 0)
  }

  lemma RowPasses(cfg: Config, payload: Bytes)
    requires cfg.blockSize == 1 && 1 <= |payload| <= 2
    ensures CheckPayload(cfg, Row(|payload|), payload).Ok? && ValidLayout(Row(|payload|).layout, Row(|payload|).dims)
  {
    var n := |payload|;
    assert CheckedProduct(1, [n][1..]) == Ok(1) && CheckedProduct(n, [n][1..]) == Ok(n);
    assert Mul(1, n) == n;
    assert Numel([n]) == Ok(n) && ByteLen([n], 1) == Ok(n);
    assert Chunk(cfg.content, payload, 1).Ok?;
    ChunkIsAccepted(cfg.content, payload, 1);
  }

  /** Without collisions, different addresses get different identities. */
  lemma NamesDiffer(cfg: Config, known: iset<Bytes>, first: Op, second: Op)
    requires Wired(cfg) && NoCollision(cfg.content, known) && first.DoRegister? && second.DoRegister?
    requires InputOk(cfg, known, first) && InputOk(cfg, known, second) && first.address != second.address
    ensures cfg.name(first.address) != cfg.name(second.address)
  {
    hide EncodeAddress, Encode;
    if cfg.name(first.address) == cfg.name(second.address) {
      AddressInjective(first.address, second.address);
    }
  }

  lemma StartsBlank(r: Rules, w: World)
    requires Initial(w) && w.s.host.capacity >= 1 && Free(w.s.storage) >= 1
    ensures Blank(r, w)
  {
    hide WorldOk;
    InitialOk(r, w);
  }

  /** The process dies before a lookup takes any file-system step, and the cache is opened again over the same files. */
  function Restart(s: State, address: Address, k: CompatKey, now: u64, listing: seq<Digest>, host: u64, storage: u64)
    : Event {
    CrashIn(DoLookup(address, k), now, 0, s.disk, listing, host, storage, map[], now)
  }

  lemma RestartOk(cfg: Config, r: Rules, w: World, address: Address, k: CompatKey, now: u64, listing: seq<Digest>,
                  host: u64, storage: u64)
    requires Lists(listing, w.s.disk)
    ensures EventOk(cfg, r, w, Restart(w.s, address, k, now, listing, host, storage))
  {
    var ops := Step(cfg, w.s, DoLookup(address, k), now).ops;
    assert ops[..0] == [];
  }

  lemma ListsOne(r: Rules, w: World, oid: Digest)
    requires WorldOk(r, w) && w.m.Keys == {oid}
    ensures Lists([oid], w.s.disk)
  {
  }

  /**
   * Registration and persisting accept the object; after a restart that interrupts nothing, the object is gone.
   */
  lemma UnsuitableLayoutIsLost(cfg: Config, known: iset<Bytes>, w0: World, address: Address, x: byte, now: u64)
    returns (evs: seq<Event>, ev: Event)
    requires Wired(cfg) && NoCollision(cfg.content, known) && cfg.hasStore && cfg.blockSize == 1 && Admits(cfg, 1)
    requires InputOk(cfg, known, DoRegister(address, ZeroStride(), [x]))
    requires Initial(w0) && w0.s.host.capacity >= 1 && Free(w0.s.storage) >= 1
    ensures Reachable(cfg, known, w0, evs) && ev.CrashIn? && ev.k == 0
    ensures var w, oid := CacheTheorems.Reached(cfg, known, w0, evs), cfg.name(address);
      && oid in w.s.entries && w.s.entries[oid].durable && OnDisk in w.s.entries[oid].placements
      && EventOk(cfg, RulesOf(cfg, known), w, ev) && oid !in Next(cfg, RulesOf(cfg, known), w, ev).s.entries
  {
    hide Wired, NoCollision, InputOk, Admits, CheckPayload, RunOk, Next, EventOk, ValidLayout, WorldOk, Restart;
    var r, k, oid := RulesOf(cfg, known), ZeroStride(), cfg.name(address);
    RulesServe(cfg, known);
    InputsSuffice(cfg, known, DoRegister(address, k, [x]), now);
    ZeroStridePasses(cfg, x);
    StartsBlank(r, w0);
    evs := RegisterThenPersist(cfg, r, w0, address, k, x, now);
    var w := CacheTheorems.Reached(cfg, known, w0, evs);
    ListsOne(r, w, oid);
    ev := Restart(w.s, address, k, now, [oid], 1, 1);
    RestartOk(cfg, r, w, address, k, now, [oid], 1, 1);
    RestartShape(w.s, address, k, now, [oid], 1, 1);
    assert w.s.entries[oid].placements[1] == OnDisk;
    ReopeningAdmitsPersisted(cfg, known, w0, evs, ev, oid);
    KeptCompat(r, w, oid);
  }

  lemma RestartShape(s: State, address: Address, k: CompatKey, now: u64, listing: seq<Digest>, host: u64, storage: u64)
    ensures var ev := Restart(s, address, k, now, listing, host, storage); ev.CrashIn? && ev.k == 0 && ev.op.DoLookup?
  {
  }

  lemma KeptCompat(r: Rules, w: World, oid: Digest)
    requires WorldOk(r, w) && oid in w.s.entries
    ensures oid in w.a && w.s.entries[oid].compat == w.a[oid].compat
  {
    SameCompat(r, w.a, w.m, w.s, oid);
  }
}

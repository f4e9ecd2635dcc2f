/** Opening a cache over a sound disk admits exactly the readable manifests whose blocks are all there. */
module CacheRecovery {
  import opened Prelude
  import opened Storage
  import opened BlockArena
  import opened Manifests
  import opened CacheSpec
  import opened CacheLoads
  import opened DiskSafety
  import opened CacheInvariant
  import opened CacheSteps
  import opened CacheKept

  /** Two images agree except for temporary files, whose contents a crash may leave in any shape. */
  ghost predicate SameButTemps(d: Disk, e: Disk) {
    forall p: Path :: !p.Temp? ==> (p in d <==> p in e) && (p in d ==> d[p] == e[p])
  }

  lemma SoundButTemps(r: Rules, m: Registry, d: Disk, e: Disk)
    requires DiskSound(r, m, d) && SameButTemps(d, e)
    ensures DiskSound(r, m, e)
  {
    assert forall o :: ManifestFile(o) in d <==> ManifestFile(o) in e;
  }

  lemma CleanIsSame(d: Disk)
    ensures SameButTemps(d, Clean(d))
  {
  }

  /** The directory lists every manifest file exactly once, in any order. */
  ghost predicate Lists(listing: seq<Digest>, d: Disk) {
    && (forall i, j :: 0 <= i < j < |listing| ==> listing[i] != listing[j])
    && (forall o :: o in listing <==> ManifestFile(o) in d)
  }

  /** The objects that opening admits. */
  ghost predicate Admitted(r: Rules, m: Registry, d: Disk, o: Digest) {
    o in m && r.readable(m[o]) && BlocksExist(d, r.blocks(m[o]))
  }

  ghost function AdmittedFrom(r: Rules, m: Registry, d: Disk, listing: seq<Digest>): Registry {
    map o | o in m && o in listing && Admitted(r, m, d, o) :: m[o]
  }

  // ---- Counting a manifest's blocks --------------------------------------------------------

  lemma {:induction false} StoreCountAll(refs: map<Digest, nat>, used: nat, d: Disk, total: multiset<Item>,
                                         blocks: seq<BlockRef>)
    requires StoreOk(refs, used, d, total)
    requires forall b :: b in blocks ==> BlockFile(b.hash) in d && b.len == |d[BlockFile(b.hash)]|
    ensures var (refs', used') := CountBlocks(refs, used, blocks);
      StoreOk(refs', used', d, total + Tagged(blocks, true))
    decreases |blocks|
  {
    hide StoreOk;
    if blocks == [] {
      assert total + Tagged([], true) == total;
    } else {
      var b, rest := blocks[0], blocks[1..];
      assert blocks == [b] + rest && b in blocks && forall x :: x in rest ==> x in blocks;
      Shuffle(total, b, rest);
      if b.hash in refs {
        StoreCounted(refs, used, d, total, b.hash);
        StoreCountAll(refs[b.hash := refs[b.hash] + 1], used, d, total + multiset{DiskRef(b.hash)}, rest);
      } else {
        StoreFirst(refs, used, d, total, b.hash);
        StoreCountAll(refs[b.hash := 1], used + b.len, d, total + multiset{DiskRef(b.hash)}, rest);
      }
    }
  }

  lemma BlockSizes(cfg: Config, r: Rules, m: Registry, oid: Digest, obj: Object, d: Disk)
    requires Serves(cfg, r) && r.good(oid, obj) && DiskSound(r, m, d) && BlocksExist(d, r.blocks(obj))
    ensures forall b :: b in r.blocks(obj) ==> BlockFile(b.hash) in d && b.len == |d[BlockFile(b.hash)]|
  {
    var refs := map b | b in r.blocks(obj) :: b.hash := 1;
    assert forall h :: h in refs ==> BlockFile(h) in d;
    EntryFileSizes(cfg, r, m, oid, obj, refs, d);
    forall b | b in r.blocks(obj)
      ensures b.len == |d[BlockFile(b.hash)]|
    {
      assert b.hash in refs;
    }
  }

  // ---- Admitting one manifest --------------------------------------------------------------

  function RecoveredEntry(r: Rules, obj: Object, now: u64): Entry {
    Entry(obj.address, obj.compat, r.identify(obj.compat), r.length(obj), r.count(obj), r.blocks(obj), [OnDisk],
          obj.createdNs, now, 0, true, false)
  }

  function Recovered(r: Rules, obj: Object, s: State, o: Digest, now: u64): State {
    var (refs, used) := CountBlocks(s.diskRefs, s.storageUsed, r.blocks(obj));
    s.(diskRefs := refs, storageUsed := used, entries := s.entries[o := RecoveredEntry(r, obj, now)],
      objectCount := s.objectCount + 1)
  }

  /** What one manifest file does to the state being recovered. */
  lemma RecoverStep(cfg: Config, r: Rules, m: Registry, s: State, o: Digest, now: u64)
    requires Serves(cfg, r) && DiskSound(r, m, s.disk) && o in m
    ensures var path := ManifestFile(o);
      && path in s.disk
      && (cfg.codec.read(s.disk[path]).Ok? <==> r.readable(m[o]))
      && (r.readable(m[o]) ==>
          RecoverOne(cfg, s, cfg.codec.read(s.disk[path]).value, now) ==
            (if Admitted(r, m, s.disk, o) then Recovered(r, m[o], s, o, now) else s))
  {
    hide CountBlocks, Usable;
    assert Usable(cfg, r, o, m[o]);
    ManifestReads(cfg, r, o, m[o]);
    ParseToHex(o);
  }

  lemma ManifestReads(cfg: Config, r: Rules, o: Digest, obj: Object)
    requires Usable(cfg, r, o, obj)
    ensures cfg.codec.read(r.text(o, obj)).Ok? <==> r.readable(obj)
    ensures r.readable(obj) ==> cfg.codec.read(r.text(o, obj)) == Ok(MetaBy(r, o, obj))
  {
  }

  lemma RecoveredEntries(r: Rules, a: Registry, m: Registry, entries: map<Digest, Entry>, backends: set<BackendId>,
                         o: Digest, now: u64)
    requires EntriesOk(r, a, entries, backends) && Linked(a, m, entries) && o !in entries && o in m && r.good(o, m[o])
    requires r.hasStore
    ensures var after := entries[o := RecoveredEntry(r, m[o], now)];
      && EntriesOk(r, a[o := m[o]], after, backends) && |after| == |entries| + 1 && Linked(a[o := m[o]], m, after)
      && TotalLoad(after) == TotalLoad(entries) + Tagged(r.blocks(m[o]), true)
  {
    hide EntriesOk, Linked, TotalLoad;
    var e := RecoveredEntry(r, m[o], now);
    assert EntryOk(r, backends, o, m[o], e);
    EntriesInserted(r, a, entries, backends, o, m[o], e);
    LinkedInserted(a, m, entries, o, m[o], e);
    TotalInserted(entries, o, e, OnDisk);
  }

  lemma RecoverOneKept(cfg: Config, r: Rules, a: Registry, m: Registry, s: State, o: Digest, now: u64)
    requires Serves(cfg, r) && StateOk(r, a, m, s) && r.hasStore && o in m && o !in s.entries
    requires Admitted(r, m, s.disk, o)
    ensures StateOk(r, a[o := m[o]], m, Recovered(r, m[o], s, o, now))
  {
    hide Serves, EntriesOk, Linked, HostOk, StoreOk, DeviceOk, CountBlocks, TotalLoad;
    assert r.good(o, m[o]);
    hide DiskSound;
    BlockSizes(cfg, r, m, o, m[o], s.disk);
    StoreCountAll(s.diskRefs, s.storageUsed, s.disk, TotalLoad(s.entries), r.blocks(m[o]));
    RecoveredEntries(r, a, m, s.entries, s.backends.Keys, o, now);
    HostDevicesIgnoreDisk(r.content, r.known, s.arena, s.backends, s.accelUsed, TotalLoad(s.entries), r.blocks(m[o]));
  }

  // ---- The whole directory -----------------------------------------------------------------

  lemma AdmittedStep(r: Rules, m: Registry, d: Disk, done: seq<Digest>, o: Digest)
    requires o in m
    ensures AdmittedFrom(r, m, d, done + [o]) ==
      if Admitted(r, m, d, o) then AdmittedFrom(r, m, d, done)[o := m[o]] else AdmittedFrom(r, m, d, done)
  {
    var whole := done + [o];
    assert forall x :: x in whole <==> x in done || x == o;
  }

  lemma {:induction false} RecoverAllKept(cfg: Config, r: Rules, m: Registry, s: State, listing: seq<Digest>, i: nat,
                                          now: u64)
    requires Serves(cfg, r) && r.hasStore && i <= |listing| && Lists(listing, s.disk)
    requires StateOk(r, AdmittedFrom(r, m, s.disk, listing[..i]), m, s)
    ensures var s' := RecoverAll(cfg, s, listing[i..], now);
      StateOk(r, AdmittedFrom(r, m, s.disk, listing), m, s') && s'.disk == s.disk
    decreases |listing| - i
  {
    hide Serves, EntriesOk, Linked, HostOk, StoreOk, DeviceOk, Admitted, RecoverOne;
    if i == |listing| {
      assert listing[..i] == listing && listing[i..] == [];
    } else {
      var o := listing[i];
      assert listing[i..][0] == o && listing[i..][1..] == listing[i + 1..] && listing[..i + 1] == listing[..i] + [o];
      assert o in listing && o in m;
      AdmittedStep(r, m, s.disk, listing[..i], o);
      RecoverStep(cfg, r, m, s, o, now);
      NotYetAdmitted(r, m, s, listing, i);
      if Admitted(r, m, s.disk, o) {
        AdmittedReadable(r, m, s.disk, o);
        RecoverOneKept(cfg, r, AdmittedFrom(r, m, s.disk, listing[..i]), m, s, o, now);
      }
      var x := cfg.codec.read(s.disk[ManifestFile(o)]);
      RecoverAllKept(cfg, r, m, if x.Ok? then RecoverOne(cfg, s, x.value, now) else s, listing, i + 1, now);
    }
  }

  lemma AdmittedReadable(r: Rules, m: Registry, d: Disk, o: Digest)
    requires Admitted(r, m, d, o)
    ensures r.readable(m[o])
  {
  }

  lemma NotYetAdmitted(r: Rules, m: Registry, s: State, listing: seq<Digest>, i: nat)
    requires i < |listing| && Lists(listing, s.disk)
    requires EntriesOk(r, AdmittedFrom(r, m, s.disk, listing[..i]), s.entries, s.backends.Keys)
    ensures listing[i] !in s.entries
  {
    hide EntryOk, Admitted;
    assert listing[i] !in listing[..i];
  }

  ghost predicate Idle(backends: map<BackendId, Backend>) {
    forall b :: b in backends ==> backends[b].inUse == 0
  }

  lemma FreshOk(r: Rules, m: Registry, d: Disk, hostCapacity: u64, storageCapacity: u64, backends: map<BackendId,
                Backend>)
    requires DiskSound(r, m, d) && Idle(backends)
    ensures StateOk(r, map[], m, Fresh(d, hostCapacity, storageCapacity, backends))
  {
    assert Loads(map[]) == map[];
    assert TotalLoad(map[]) == multiset{};
    assert Lengths(map[]) == map[] && FileSizes(map[], d) == map[];
  }

  /** Opening over any image that agrees with a sound disk admits exactly the readable, complete manifests. */
  lemma OpenAdmits(cfg: Config, r: Rules, m: Registry, d: Disk, image: Disk, listing: seq<Digest>,
                   hostCapacity: u64, storageCapacity: u64, backends: map<BackendId, Backend>, now: u64)
    requires Serves(cfg, r) && DiskSound(r, m, d) && SameButTemps(d, image) && Lists(listing, image) && Idle(backends)
    ensures var s := Open(cfg, image, listing, hostCapacity, storageCapacity, backends, now);
      if cfg.hasStore then StateOk(r, AdmittedFrom(r, m, Clean(image), listing), m, s) && s.disk == Clean(image)
      else StateOk(r, map[], m, s) && s.disk == image
  {
    hide DiskSound, SameButTemps, Lists, StateOk, RecoverAll;
    SoundButTemps(r, m, d, image);
    if cfg.hasStore {
      CleanIsSame(image);
      SoundButTemps(r, m, image, Clean(image));
      FreshOk(r, m, Clean(image), hostCapacity, storageCapacity, backends);
      ListsClean(listing, image);
      var s := Fresh(Clean(image), hostCapacity, storageCapacity, backends);
      assert listing[..0] == [] && listing[0..] == listing;
      assert AdmittedFrom(r, m, s.disk, []) == map[];
      RecoverAllKept(cfg, r, m, s, listing, 0, now);
    } else {
      FreshOk(r, m, image, hostCapacity, storageCapacity, backends);
    }
  }

  lemma ListsClean(listing: seq<Digest>, d: Disk)
    requires Lists(listing, d)
    ensures Lists(listing, Clean(d))
  {
    assert forall o :: ManifestFile(o) in d <==> ManifestFile(o) in Clean(d);
  }
}

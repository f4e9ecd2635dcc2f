/** What each placement holds on to, and the total over all entries. */
module CacheLoads {
  import opened Prelude
  import opened Storage
  import opened BlockArena
  import opened Sums
  import opened CacheSpec

  /** One unit held by a placement: a reference to a host or stored block, or a byte of a device. */
  datatype Item = HostRef(h: Digest) | DiskRef(h: Digest) | DeviceByte(b: BackendId) | AnyDeviceByte

  function Tagged(blocks: seq<BlockRef>, onDisk: bool): multiset<Item> {
    if blocks == [] then multiset{}
    else multiset{if onDisk then DiskRef(blocks[0].hash) else HostRef(blocks[0].hash)} + Tagged(blocks[1..], onDisk)
  }

  lemma {:induction false} TaggedCounts(blocks: seq<BlockRef>, onDisk: bool, x: Item)
    ensures Tagged(blocks, onDisk)[x] ==
      match x
      case HostRef(h) => (if onDisk then 0 else Uses(blocks)[h])
      case DiskRef(h) => (if onDisk then Uses(blocks)[h] else 0)
      case _ => 0
  {
    if blocks != [] {
      TaggedCounts(blocks[1..], onDisk, x);
    }
  }

  function Load(blocks: seq<BlockRef>, p: Placement): multiset<Item> {
    match p
    case InHost(refs) => Tagged(refs, false)
    case OnDevice(b, data) => multiset{}[DeviceByte(b) := |data|][AnyDeviceByte := |data|]
    case OnDisk => Tagged(blocks, true)
  }

  function LoadAll(blocks: seq<BlockRef>, ps: seq<Placement>): multiset<Item> {
    if ps == [] then multiset{} else Load(blocks, ps[0]) + LoadAll(blocks, ps[1..])
  }

  lemma {:induction false} LoadPush(blocks: seq<BlockRef>, ps: seq<Placement>, p: Placement)
    ensures LoadAll(blocks, ps + [p]) == LoadAll(blocks, ps) + Load(blocks, p)
  {
    if ps == [] {
      assert [p][1..] == [];
    } else {
      assert (ps + [p])[1..] == ps[1..] + [p];
      LoadPush(blocks, ps[1..], p);
    }
  }

  lemma {:induction false} LoadWithout(blocks: seq<BlockRef>, ps: seq<Placement>, i: nat)
    requires i < |ps|
    ensures LoadAll(blocks, ps) == Load(blocks, ps[i]) + LoadAll(blocks, Without(ps, i))
  {
    if i == 0 {
      assert Without(ps, 0) == ps[1..];
    } else {
      assert Without(ps, i)[0] == ps[0] && Without(ps, i)[1..] == Without(ps[1..], i - 1);
      LoadWithout(blocks, ps[1..], i - 1);
    }
  }

  function Loads(entries: map<Digest, Entry>): map<Digest, multiset<Item>> {
    map oid | oid in entries :: LoadAll(entries[oid].blocks, entries[oid].placements)
  }

  /** Everything the placements of all entries hold. */
  ghost function TotalLoad(entries: map<Digest, Entry>): multiset<Item> {
    Total(Loads(entries))
  }

  function LoadAt(entries: map<Digest, Entry>, oid: Digest): multiset<Item> {
    if oid in entries then LoadAll(entries[oid].blocks, entries[oid].placements) else multiset{}
  }

  lemma TotalDrop(entries: map<Digest, Entry>, oid: Digest)
    ensures TotalLoad(entries) == TotalLoad(entries - {oid}) + LoadAt(entries, oid)
  {
    assert Loads(entries - {oid}) == Loads(entries) - {oid};
    if oid in entries {
      TotalRemove(Loads(entries), oid);
    } else {
      assert entries - {oid} == entries;
    }
  }

  /** Replacing or adding one entry changes the total by exactly the difference of the two loads. */
  lemma TotalReplace(entries: map<Digest, Entry>, oid: Digest, e: Entry)
    ensures TotalLoad(entries[oid := e]) + LoadAt(entries, oid) == TotalLoad(entries) + LoadAll(e.blocks, e.placements)
  {
    TotalDrop(entries, oid);
    TotalDrop(entries[oid := e], oid);
    assert entries[oid := e] - {oid} == entries - {oid};
  }

  lemma TotalPush(entries: map<Digest, Entry>, oid: Digest, p: Placement)
    requires oid in entries
    ensures var e := entries[oid];
      TotalLoad(entries[oid := e.(placements := e.placements + [p])]) == TotalLoad(entries) + Load(e.blocks, p)
  {
    var e := entries[oid];
    var e' := e.(placements := e.placements + [p]);
    TotalReplace(entries, oid, e');
    LoadPush(e.blocks, e.placements, p);
    Cancel(TotalLoad(entries[oid := e']), LoadAll(e.blocks, e.placements), TotalLoad(entries), Load(e.blocks, p));
  }

  lemma TotalWithout(entries: map<Digest, Entry>, oid: Digest, i: nat)
    requires oid in entries && i < |entries[oid].placements|
    ensures var e := entries[oid];
      TotalLoad(entries) ==
        TotalLoad(entries[oid := e.(placements := Without(e.placements, i))]) + Load(e.blocks, e.placements[i])
  {
    var e := entries[oid];
    var e' := e.(placements := Without(e.placements, i));
    TotalReplace(entries, oid, e');
    LoadWithout(e.blocks, e.placements, i);
    Cancel(TotalLoad(entries), LoadAll(e'.blocks, e'.placements), TotalLoad(entries[oid := e']),
      Load(e.blocks, e.placements[i]));
  }

  lemma Cancel(a: multiset<Item>, b: multiset<Item>, c: multiset<Item>, d: multiset<Item>)
    requires a + b == c + (b + d)
    ensures a == c + d
  {
    forall x
      ensures a[x] == (c + d)[x]
    {
      assert (a + b)[x] == (c + (b + d))[x];
    }
  }

  /** Changing an entry without touching its placements leaves the total alone. */
  lemma TotalSame(entries: map<Digest, Entry>, oid: Digest, e: Entry)
    requires oid in entries && e.blocks == entries[oid].blocks && e.placements == entries[oid].placements
    ensures TotalLoad(entries[oid := e]) == TotalLoad(entries)
  {
    assert Loads(entries[oid := e]) == Loads(entries);
  }

  lemma TotalAboveEntry(entries: map<Digest, Entry>, oid: Digest, i: nat)
    requires oid in entries && i < |entries[oid].placements|
    ensures Load(entries[oid].blocks, entries[oid].placements[i]) <= TotalLoad(entries)
  {
    TotalWithout(entries, oid, i);
  }
}

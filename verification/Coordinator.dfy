/** The coordinator: who owns each object, under which fence, and what survives a restart. */
module Coordination {
  import opened Prelude
  import opened Wire
  import opened Compat
  import opened Messages

  datatype Owned = Owned(owner: Bytes, fence: u64, epoch: u64)

  datatype Pending = Pending(newOwner: Bytes, toFence: u64)

  datatype State = State(epoch: u64, bootId: Bytes, leaseNs: u64, nodes: map<Bytes, Bytes>, objects: map<Bytes, Owned>,
    migrations: map<Bytes, Pending>)

  function New(leaseNs: u64, bootId: Bytes): State {
    State(1, bootId, leaseNs, map[], map[], map[])
  }

  /** Machine addition without overflow checks. */
  function Wrap(n: nat): u64 {
    n % TWO_64
  }

  /** How object identities are spelled; a parameter of everything below. */
  type Naming = Address -> Bytes

  function OnCreate(s: State, id: Bytes, nodeId: Bytes): (State, Result<seq<Message>>) {
    if id in s.objects then
      var o := s.objects[id];
      if o.owner == nodeId then (s, Ok([CreateAck(id, s.epoch, o.fence, nodeId)])) else (s, Err(Authority))
    else (s.(objects := s.objects[id := Owned(nodeId, 0, s.epoch)]), Ok([CreateAck(id, s.epoch, 0, nodeId)]))
  }

  function OnLookup(s: State, id: Bytes, generation: u64): Message {
    if id !in s.objects then LookupResult(false, None, None, generation)
    else
      var owner := s.objects[id].owner;
      LookupResult(true, Some(owner), if owner in s.nodes then Some(s.nodes[owner]) else None, generation)
  }

  function OnRenew(s: State, id: Bytes, fence: u64, now: u64): Result<seq<Message>> {
    if id !in s.objects then Err(NotFound)
    else if fence != s.objects[id].fence then Err(Authority)
    else Ok([LeaseGrant(id, s.epoch, fence, Wrap(now + s.leaseNs))])
  }

  function OnMigrate(s: State, id: Bytes, newOwner: Bytes, addr: Bytes, fence: u64): (State, Result<seq<Message>>) {
    if id !in s.objects then (s, Err(NotFound))
    else if fence < s.objects[id].fence then (s, Err(Authority))
    else
      var toFence := Wrap(s.objects[id].fence + 1);
      (s.(migrations := s.migrations[id := Pending(newOwner, toFence)]),
       Ok([Migrate(id, newOwner, if newOwner in s.nodes then s.nodes[newOwner] else addr, toFence)]))
  }

  function OnAck(s: State, id: Bytes, newOwner: Bytes, fence: u64): (State, Result<seq<Message>>) {
    if id !in s.migrations || s.migrations[id] != Pending(newOwner, fence) then (s, Err(Authority))
    else
      var objects := if id in s.objects then s.objects[id := Owned(newOwner, fence, s.epoch)] else s.objects;
      (s.(objects := objects, migrations := s.migrations - {id}), Ok([]))
  }

  function Handle(name: Naming, s: State, m: Message, now: u64): (State, Result<seq<Message>>) {
    match m
    case Register(nodeId, addr) =>
      (s.(nodes := s.nodes[nodeId := addr]), Ok([Hello(s.epoch, s.bootId, nodeId, addr, s.leaseNs)]))
    case Create(namespace, key, generation, _, _, nodeId) =>
      OnCreate(s, name(Address(namespace, key, generation)), nodeId)
    case Lookup(namespace, key, generation, _) =>
      (s, Ok([OnLookup(s, name(Address(namespace, key, generation)), generation)]))
    case LeaseRenew(id, fence) => (s, OnRenew(s, id, fence, now))
    case Migrate(id, newOwner, addr, fence) => OnMigrate(s, id, newOwner, addr, fence)
    case MigrateAck(id, newOwner, fence) => OnAck(s, id, newOwner, fence)
    case Heartbeat(_, _) => (s, Ok([]))
    case _ => (s, Ok([Failure(UNSUPPORTED, UNSUPPORTED)]))
  }

  /** The text of the reply to a message the coordinator does not serve. */
  const UNSUPPORTED: Bytes := [117, 110, 115, 117, 112, 112, 111, 114, 116, 101, 100]

  // ---- The snapshot ------------------------------------------------------------------------

  const SNAPSHOT_MAGIC: nat := 0x5443_434F
  const SNAPSHOT: seq<Field> := [Num(4, SNAPSHOT_MAGIC, SNAPSHOT_MAGIC), Num(1, 1, 1), U64, U64]
  const ENTRY: seq<Field> := [Text, Text, U64]

  /** One saved object. */
  datatype Saved = Saved(id: Bytes, owner: Bytes, fence: u64)

  ghost predicate SavedOk(e: Saved) {
    ShortText(e.id) && ShortText(e.owner)
  }

  function SavedValues(e: Saved): (vs: seq<Value>)
    ensures |vs| == |ENTRY|
  {
    [VBlob(e.id), VBlob(e.owner), VNum(e.fence)]
  }

  function PrintSaved(es: seq<Saved>): Bytes {
    if es == [] then [] else PrintAll(ENTRY, SavedValues(es[0])) + PrintSaved(es[1..])
  }

  function SnapshotHead(epoch: u64, count: nat): (vs: seq<Value>)
    ensures |vs| == |SNAPSHOT|
  {
    [VNum(SNAPSHOT_MAGIC), VNum(1), VNum(epoch), VNum(count)]
  }

  function SavedAt(objects: map<Bytes, Owned>, order: seq<Bytes>): seq<Saved>
    requires forall i :: 0 <= i < |order| ==> order[i] in objects
  {
    seq(|order|, i requires 0 <= i < |order| => Saved(order[i], objects[order[i]].owner, objects[order[i]].fence))
  }

  /** The order in which a hash map happens to list its keys. */
  ghost predicate Enumerates(order: seq<Bytes>, objects: map<Bytes, Owned>) {
    && (forall i :: 0 <= i < |order| ==> order[i] in objects)
    && (forall i, j :: 0 <= i < j < |order| ==> order[i] != order[j])
    && |order| == |objects|
  }

  function Snapshot(s: State, order: seq<Bytes>): Bytes
    requires forall i :: 0 <= i < |order| ==> order[i] in s.objects
  {
    PrintAll(SNAPSHOT, SnapshotHead(s.epoch, |s.objects|)) + PrintSaved(SavedAt(s.objects, order))
  }

  function ParseSaved(count: nat, b: Bytes): Parse<seq<Saved>>
    decreases count
  {
    if count == 0 then Ok(([], b))
    else
      var (vs, b1) :- ParseAll(ENTRY, b);
      if !(vs[0].VBlob? && vs[1].VBlob? && vs[2].VNum? && vs[2].n < TWO_64) then Err(Protocol)
      else
        var (es, b2) :- ParseSaved(count - 1, b1);
        Ok(([Saved(vs[0].b, vs[1].b, vs[2].n)] + es, b2))
  }

  datatype Image = Image(epoch: u64, entries: seq<Saved>)

  function ParseBody(epoch: u64, count: nat, b: Bytes): Result<Image> {
    var (es, tail) :- ParseSaved(count, b);
    if tail != [] then Err(Persistence) else Ok(Image(epoch, es))
  }

  function ParseImage(b: Bytes): Result<Image> {
    var (h, rest) :- ParseAll(SNAPSHOT, b);
    if h[2].VNum? && h[2].n < TWO_64 && h[3].VNum? then ParseBody(h[2].n, h[3].n, rest) else Err(Protocol)
  }

  /** Insert the entries one after another. */
  function Installed(objects: map<Bytes, Owned>, es: seq<Saved>, epoch: u64): map<Bytes, Owned>
    decreases |es|
  {
    if es == [] then objects else Installed(objects[es[0].id := Owned(es[0].owner, es[0].fence, epoch)], es[1..], epoch)
  }

  /** Load a snapshot if there is one; the epoch advances past the saved one. */
  function Load(s: State, file: Option<Bytes>, bootId: Bytes): (State, Result<()>) {
    if file.None? then (s, Ok(()))
    else
      match ParseImage(file.value)
      case Err(e) => (s, Err(e))
      case Ok(image) =>
        (s.(objects := Installed(map[], image.entries, image.epoch), epoch := SatAdd(image.epoch, 1), bootId := bootId),
          Ok(()))
  }

  // ---- The snapshot round trip -------------------------------------------------------------

  lemma SavedFits(e: Saved)
    ensures SavedOk(e) <==> FitsAll(ENTRY, SavedValues(e))
  {
    hide ShortText;
    Powers();
    if FitsAll(ENTRY, SavedValues(e)) {
      assert Fits(ENTRY[0], SavedValues(e)[0]) && Fits(ENTRY[1], SavedValues(e)[1]);
    }
  }

  lemma {:induction false} ParsePrintSaved(es: seq<Saved>, rest: Bytes)
    requires forall i :: 0 <= i < |es| ==> SavedOk(es[i])
    ensures ParseSaved(|es|, PrintSaved(es) + rest) == Ok((es, rest))
  {
    hide PrintAll, ParseAll, FitsAll, SavedOk;
    if es == [] {
      assert PrintSaved(es) + rest == rest;
    } else {
      SavedFits(es[0]);
      assert PrintSaved(es) + rest == PrintAll(ENTRY, SavedValues(es[0])) + (PrintSaved(es[1..]) + rest);
      ParsePrintAll(ENTRY, SavedValues(es[0]), PrintSaved(es[1..]) + rest);
      ParsePrintSaved(es[1..], rest);
      assert es == [es[0]] + es[1..];
    }
  }

  lemma {:induction false} InstalledLookup(objects: map<Bytes, Owned>, es: seq<Saved>, epoch: u64, id: Bytes)
    requires forall i, j :: 0 <= i < j < |es| ==> es[i].id != es[j].id
    ensures var after := Installed(objects, es, epoch);
      && (id in after <==> id in objects || exists i :: 0 <= i < |es| && es[i].id == id)
      && (forall i :: 0 <= i < |es| && es[i].id == id ==> after[id] == Owned(es[i].owner, es[i].fence, epoch))
      && (id in objects && (forall i :: 0 <= i < |es| ==> es[i].id != id) ==> after[id] == objects[id])
    decreases |es|
  {
    if es != [] {
      InstalledLookup(objects[es[0].id := Owned(es[0].owner, es[0].fence, epoch)], es[1..], epoch, id);
      assert forall i :: 1 <= i < |es| ==> es[i] == es[1..][i - 1];
    }
  }

  lemma EnumerationIsComplete(order: seq<Bytes>, objects: map<Bytes, Owned>, id: Bytes)
    requires Enumerates(order, objects) && id in objects
    ensures exists i :: 0 <= i < |order| && order[i] == id
  {
    var listed := set i | 0 <= i < |order| :: order[i];
    DistinctCount(order);
    assert listed <= objects.Keys;
    if id !in listed {
      assert listed < objects.Keys;
      ProperSubset(listed, objects.Keys);
    }
  }

  lemma ProperSubset(a: set<Bytes>, b: set<Bytes>)
    requires a < b
    ensures |a| < |b|
  {
    assert b == a + (b - a);
    assert |b - a| > 0;
  }

  lemma {:induction false} DistinctCount(order: seq<Bytes>)
    requires forall i, j :: 0 <= i < j < |order| ==> order[i] != order[j]
    ensures |set i | 0 <= i < |order| :: order[i]| == |order|
    decreases |order|
  {
    if order != [] {
      var n := |order| - 1;
      var init := order[..n];
      DistinctCount(init);
      var a, b := set i | 0 <= i < |init| :: init[i], set i | 0 <= i < |order| :: order[i];
      assert a == set i | 0 <= i < n :: order[i];
      assert b == a + {order[n]};
    }
  }

  ghost predicate Saveable(s: State) {
    |s.objects| < TWO_64 && forall id :: id in s.objects ==> ShortText(id) && ShortText(s.objects[id].owner)
  }

  /** Same identities with the same owners and fences. */
  ghost predicate SameOwners(a: map<Bytes, Owned>, b: map<Bytes, Owned>) {
    a.Keys == b.Keys && forall id :: id in a ==> a[id].owner == b[id].owner && a[id].fence == b[id].fence
  }

  lemma SnapshotParses(s: State, order: seq<Bytes>)
    requires Saveable(s) && Enumerates(order, s.objects)
    ensures ParseImage(Snapshot(s, order)) == Ok(Image(s.epoch, SavedAt(s.objects, order)))
  {
    hide ShortText, PrintAll, ParseAll;
    var es := SavedAt(s.objects, order);
    Powers();
    assert FitsAll(SNAPSHOT, SnapshotHead(s.epoch, |s.objects|));
    ParsePrintAll(SNAPSHOT, SnapshotHead(s.epoch, |s.objects|), PrintSaved(es));
    ParsePrintSaved(es, []);
    assert PrintSaved(es) + [] == PrintSaved(es);
  }

  /**
   * Whatever order a hash map lists its keys in, loading a snapshot restores every owner and fence and advances the
   * epoch.
   */
  lemma SnapshotRestoresOwners(s: State, order: seq<Bytes>, blank: State, bootId: Bytes)
    requires Saveable(s) && Enumerates(order, s.objects)
    ensures var (t, r) := Load(blank, Some(Snapshot(s, order)), bootId);
      && r.Ok? && SameOwners(s.objects, t.objects) && t.epoch == SatAdd(s.epoch, 1)
      && t.bootId == bootId && t.nodes == blank.nodes && t.migrations == blank.migrations && t.leaseNs == blank.leaseNs
  {
    hide Snapshot, ParseImage;
    SnapshotParses(s, order);
    var es := SavedAt(s.objects, order);
    var t := Load(blank, Some(Snapshot(s, order)), bootId).0;
    forall id
      ensures id in t.objects <==> id in s.objects
      ensures id in s.objects ==>
        t.objects[id].owner == s.objects[id].owner && t.objects[id].fence == s.objects[id].fence
    {
      InstalledLookup(map[], es, s.epoch, id);
      if id in s.objects {
        EnumerationIsComplete(order, s.objects, id);
        var i :| 0 <= i < |order| && order[i] == id;
        assert es[i].id == id;
      }
    }
  }

  // ---- The coordinator object --------------------------------------------------------------

  class Coordinator {
    var epoch: u64
    var bootId: Bytes
    var leaseNs: u64
    var nodes: map<Bytes, Bytes>
    var objects: map<Bytes, Owned>
    var migrations: map<Bytes, Pending>

    ghost function View(): State
      reads this
    {
      State(epoch, bootId, leaseNs, nodes, objects, migrations)
    }

    constructor (lease: u64, boot: Bytes)
      ensures View() == New(lease, boot)
    {
      epoch, bootId, leaseNs, nodes, objects, migrations := 1, boot, lease, map[], map[], map[];
    }

    method Restart(boot: Bytes)
      modifies this
      ensures View() == old(View()).(epoch := SatAdd(old(epoch), 1), bootId := boot)
    {
      epoch := SatAdd(epoch, 1);
      bootId := boot;
    }

    method HandleMessage(name: Naming, m: Message, now: u64) returns (r: Result<seq<Message>>)
      modifies this
      ensures (View(), r) == Handle(name, old(View()), m, now)
    {
      match m
      case Register(nodeId, addr) =>
        nodes := nodes[nodeId := addr];
        return Ok([Hello(epoch, bootId, nodeId, addr, leaseNs)]);
      case Create(namespace, key, generation, _, _, nodeId) =>
        var id := name(Address(namespace, key, generation));
        if id in objects {
          if objects[id].owner == nodeId {
            return Ok([CreateAck(id, epoch, objects[id].fence, nodeId)]);
          }
          return Err(Authority);
        }
        objects := objects[id := Owned(nodeId, 0, epoch)];
        return Ok([CreateAck(id, epoch, 0, nodeId)]);
      case Lookup(namespace, key, generation, _) =>
        var id := name(Address(namespace, key, generation));
        if id !in objects {
          return Ok([LookupResult(false, None, None, generation)]);
        }
        var owner := objects[id].owner;
        return Ok([LookupResult(true, Some(owner), if owner in nodes then Some(nodes[owner]) else None, generation)]);
      case LeaseRenew(id, fence) =>
        if id !in objects {
          return Err(NotFound);
        }
        if fence != objects[id].fence {
          return Err(Authority);
        }
        return Ok([LeaseGrant(id, epoch, objects[id].fence, Wrap(now + leaseNs))]);
      case Migrate(id, newOwner, addr, fence) =>
        if id !in objects {
          return Err(NotFound);
        }
        if fence < objects[id].fence {
          return Err(Authority);
        }
        var toFence := Wrap(objects[id].fence + 1);
        var target := if newOwner in nodes then nodes[newOwner] else addr;
        migrations := migrations[id := Pending(newOwner, toFence)];
        return Ok([Migrate(id, newOwner, target, toFence)]);
      case MigrateAck(id, newOwner, fence) =>
        if id !in migrations {
          return Err(Authority);
        }
        if migrations[id].newOwner != newOwner || migrations[id].toFence != fence {
          return Err(Authority);
        }
        if id in objects {
          objects := objects[id := Owned(newOwner, fence, epoch)];
        }
        migrations := migrations - {id};
        return Ok([]);
      case Heartbeat(_, _) =>
        return Ok([]);
      case _ =>
        return Ok([Failure(UNSUPPORTED, UNSUPPORTED)]);
    }

    method Save(order: seq<Bytes>) returns (b: Bytes)
      requires Saveable(View()) && Enumerates(order, objects)
      ensures b == Snapshot(View(), order)
    {
      hide PrintAll, ShortText;
      Powers();
      var w := new Writer();
      assert FitsAll(SNAPSHOT, SnapshotHead(epoch, |objects|));
      w.PutAll(SNAPSHOT, SnapshotHead(epoch, |objects|));
      ghost var head := PrintAll(SNAPSHOT, SnapshotHead(epoch, |objects|));
      ghost var es := SavedAt(objects, order);
      assert w.buf == head;
      assert es[0..] == es;
      for i := 0 to |order|
        invariant fresh(w) && w.buf + PrintSaved(es[i..]) == head + PrintSaved(es)
      {
        var e := Saved(order[i], objects[order[i]].owner, objects[order[i]].fence);
        ghost var before := w.buf;
        assert e == es[i] && SavedOk(e);
        SavedFits(e);
        w.PutAll(ENTRY, SavedValues(e));
        assert es[i..][1..] == es[i + 1..];
        assert before + PrintSaved(es[i..]) == w.buf + PrintSaved(es[i + 1..]);
      }
      assert w.buf + PrintSaved([]) == w.buf;
      return w.buf;
    }

    method LoadFrom(file: Option<Bytes>, boot: Bytes) returns (r: Result<()>)
      modifies this
      ensures (View(), r) == Load(old(View()), file, boot)
    {
      if file.None? {
        return Ok(());
      }
      var image := ReadImage(file.value);
      if image.Err? {
        return Err(image.error);
      }
      var loaded: map<Bytes, Owned> := map[];
      var es := image.value.entries;
      assert es[0..] == es;
      for i := 0 to |es|
        invariant Installed(map[], es, image.value.epoch) == Installed(loaded, es[i..], image.value.epoch)
        invariant View() == old(View())
      {
        assert es[i..][1..] == es[i + 1..];
        loaded := loaded[es[i].id := Owned(es[i].owner, es[i].fence, image.value.epoch)];
      }
      objects := loaded;
      epoch := SatAdd(image.value.epoch, 1);
      bootId := boot;
      return Ok(());
    }
  }

  method ReadEntries(rd: Reader, count: nat) returns (r: Result<seq<Saved>>)
    requires rd.Valid()
    modifies rd
    ensures rd.Valid() && Agrees(r, ParseSaved(count, old(rd.Rest())), rd.Rest())
  {
    hide ParseAll;
    var es: seq<Saved> := [];
    ExtendEmpty(ParseSaved(count, rd.Rest()));
    for i := 0 to count
      invariant rd.Valid()
      invariant ParseSaved(count, old(rd.Rest())) == Extend(es, ParseSaved(count - i, rd.Rest()))
    {
      var vs :- rd.GetAll(ENTRY);
      if !(vs[0].VBlob? && vs[1].VBlob? && vs[2].VNum? && vs[2].n < TWO_64) {
        return Err(Protocol);
      }
      var e := Saved(vs[0].b, vs[1].b, vs[2].n);
      ExtendStep(es, e, ParseSaved(count - i - 1, rd.Rest()));
      es := es + [e];
    }
    assert es + [] == es;
    return Ok(es);
  }

  method ReadBody(rd: Reader, epoch: u64, count: nat) returns (r: Result<Image>)
    requires rd.Valid()
    modifies rd
    ensures r == ParseBody(epoch, count, old(rd.Rest()))
  {
    hide ParseSaved;
    var es :- ReadEntries(rd, count);
    if rd.pos != |rd.data| {
      assert rd.Rest() != [];
      return Err(Persistence);
    }
    assert rd.Rest() == [];
    return Ok(Image(epoch, es));
  }

  method ReadImage(b: Bytes) returns (r: Result<Image>)
    ensures r == ParseImage(b)
  {
    hide ParseAll, ParseBody;
    var rd := new Reader(b);
    var h :- rd.GetAll(SNAPSHOT);
    if !(h[2].VNum? && h[2].n < TWO_64 && h[3].VNum?) {
      return Err(Protocol);
    }
    r := ReadBody(rd, h[2].n, h[3].n);
  }
}

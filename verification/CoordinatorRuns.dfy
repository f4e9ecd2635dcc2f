/** Ownership over whole runs of the coordinator: any messages in any order, and restarts from the latest snapshot. */
module CoordinatorRuns {
  import opened Prelude
  import opened Wire
  import opened Compat
  import opened Messages
  import opened Coordination

  /** The running coordinator and its snapshot file. */
  datatype World = World(coord: State, file: Option<Bytes>)

  /**
   * A message is handled and the state saved, both under one lock; or the process is restarted and loads the
   * snapshot; or the running process rotates its identity.
   */
  datatype Event =
    | Deliver(m: Message, now: u64, order: seq<Bytes>)
    | Reboot(leaseNs: u64, bootId: Bytes)
    | Rotate(bootId: Bytes)

  ghost predicate EventOk(name: Naming, w: World, ev: Event) {
    ev.Deliver? ==> Typed(ev.m) && Enumerates(ev.order, Handle(name, w.coord, ev.m, ev.now).0.objects)
  }

  ghost function Next(name: Naming, w: World, ev: Event): World
    requires EventOk(name, w, ev)
  {
    match ev
    case Deliver(m, now, order) =>
      var s := Handle(name, w.coord, m, now).0;
      World(s, Some(Snapshot(s, order)))
    case Reboot(leaseNs, bootId) => World(Load(New(leaseNs, bootId), w.file, bootId).0, w.file)
    case Rotate(bootId) => World(w.coord.(epoch := SatAdd(w.coord.epoch, 1), bootId := bootId), w.file)
  }

  // ---- The invariant -----------------------------------------------------------------------

  /** Every pending migration is for an owned object and carries the fence after the current one. */
  ghost predicate PendingOk(s: State) {
    forall id :: id in s.migrations ==> id in s.objects && s.migrations[id].toFence == Wrap(s.objects[id].fence + 1)
  }

  ghost predicate TextsOk(s: State) {
    && (forall id :: id in s.objects ==> ShortText(id) && ShortText(s.objects[id].owner))
    && (forall id :: id in s.migrations ==> ShortText(s.migrations[id].newOwner))
  }

  /** After `k` events there are at most `k` objects, and no fence is above `k`. */
  ghost predicate Bounded(s: State, k: nat) {
    |s.objects| <= k && forall id :: id in s.objects ==> s.objects[id].fence <= k
  }

  /** The snapshot file, if any, tells the current owners and fences. */
  ghost predicate FileOk(w: World) {
    match w.file
    case None => w.coord.objects == map[]
    case Some(b) =>
      exists s, order ::
        Saveable(s) && Enumerates(order, s.objects) && b == Snapshot(s, order) && SameOwners(s.objects, w.coord.objects)
  }

  ghost predicate WorldOk(w: World, k: nat) {
    Tidy(w.coord, k) && FileOk(w)
  }

  ghost predicate NamesAreTexts(name: Naming) {
    forall a :: ShortText(name(a))
  }

  // ---- One step ----------------------------------------------------------------------------

  /** One step on one object: nothing changes, or the owner changes and the fence advances by one. */
  ghost predicate Moves(a: map<Bytes, Owned>, b: map<Bytes, Owned>) {
    forall id :: id in a ==>
      id in b && ((b[id].owner == a[id].owner && b[id].fence == a[id].fence) || b[id].fence == Wrap(a[id].fence + 1))
  }

  ghost predicate Tidy(s: State, k: nat) {
    PendingOk(s) && TextsOk(s) && Bounded(s, k)
  }

  lemma CreateKeeps(s: State, id: Bytes, nodeId: Bytes, k: nat)
    requires Tidy(s, k) && ShortText(id) && ShortText(nodeId)
    ensures var t := OnCreate(s, id, nodeId).0; Tidy(t, k + 1) && Moves(s.objects, t.objects)
  {
    hide ShortText, Wrap;
    CountInsert(s.objects, id, Owned(nodeId, 0, s.epoch));
  }

  lemma CountInsert(objects: map<Bytes, Owned>, id: Bytes, o: Owned)
    ensures |objects[id := o]| <= |objects| + 1 && (id in objects ==> |objects[id := o]| == |objects|)
  {
    assert objects[id := o].Keys == objects.Keys + {id};
    assert |objects[id := o].Keys| == |objects[id := o]| && |objects.Keys| == |objects|;
    if id in objects {
      assert objects.Keys + {id} == objects.Keys;
    }
  }

  lemma MigrateKeeps(s: State, id: Bytes, newOwner: Bytes, addr: Bytes, fence: u64, k: nat)
    requires Tidy(s, k) && ShortText(newOwner)
    ensures var t := OnMigrate(s, id, newOwner, addr, fence).0; Tidy(t, k + 1) && Moves(s.objects, t.objects)
  {
    hide ShortText, Wrap;
  }

  lemma AckKeeps(s: State, id: Bytes, newOwner: Bytes, fence: u64, k: nat)
    requires Tidy(s, k) && k < U64_MAX && ShortText(newOwner)
    ensures var t := OnAck(s, id, newOwner, fence).0; Tidy(t, k + 1) && Moves(s.objects, t.objects)
  {
    hide ShortText, Wrap;
    if id in s.migrations {
      CountInsert(s.objects, id, Owned(newOwner, fence, s.epoch));
      WrapSmall(s.objects[id].fence + 1);
    }
  }

  lemma WrapSmall(n: nat)
    requires n < TWO_64
    ensures Wrap(n) == n
  {
  }

  lemma HandleKeeps(name: Naming, s: State, m: Message, now: u64, k: nat)
    requires Tidy(s, k) && k < U64_MAX && Typed(m) && NamesAreTexts(name)
    ensures var t := Handle(name, s, m, now).0; Tidy(t, k + 1) && Moves(s.objects, t.objects)
  {
    hide ShortText, OnCreate, OnMigrate, OnAck, Wrap;
    match m
    case Create(namespace, key, generation, _, _, nodeId) =>
      CreateKeeps(s, name(Address(namespace, key, generation)), nodeId, k);
    case Migrate(id, newOwner, addr, fence) =>
      MigrateKeeps(s, id, newOwner, addr, fence, k);
    case MigrateAck(id, newOwner, fence) =>
      AckKeeps(s, id, newOwner, fence, k);
    case _ =>
  }

  lemma SameOwnersKeep(s: State, a: State, k: nat)
    requires Bounded(s, k) && TextsOk(s) && SameOwners(s.objects, a.objects) && a.migrations == map[]
    ensures Bounded(a, k) && TextsOk(a) && PendingOk(a) && Moves(s.objects, a.objects)
  {
    assert |a.objects.Keys| == |s.objects.Keys|;
  }

  lemma RebootKeeps(w: World, leaseNs: u64, bootId: Bytes, k: nat)
    requires WorldOk(w, k)
    ensures var (t, r) := Load(New(leaseNs, bootId), w.file, bootId);
      r.Ok? && SameOwners(w.coord.objects, t.objects) && t.migrations == map[] && t.nodes == map[]
        && FileOk(World(t, w.file))
  {
    hide Snapshot, ParseImage, Saveable, Installed;
    if w.file.Some? {
      var s, order :| Saveable(s) && Enumerates(order, s.objects) && w.file.value == Snapshot(s, order)
        && SameOwners(s.objects, w.coord.objects);
      SnapshotRestoresOwners(s, order, New(leaseNs, bootId), bootId);
    }
  }

  lemma NextKeeps(name: Naming, w: World, ev: Event, k: nat)
    requires WorldOk(w, k) && k < U64_MAX && EventOk(name, w, ev) && NamesAreTexts(name)
    ensures WorldOk(Next(name, w, ev), k + 1) && Moves(w.coord.objects, Next(name, w, ev).coord.objects)
  {
    hide Handle, Snapshot, ShortText, ParseImage, Typed, Installed;
    match ev
    case Deliver(m, now, order) =>
      HandleKeeps(name, w.coord, m, now, k);
      var s := Handle(name, w.coord, m, now).0;
      assert Saveable(s) && SameOwners(s.objects, s.objects);
    case Reboot(leaseNs, bootId) =>
      RebootKeeps(w, leaseNs, bootId, k);
      SameOwnersKeep(w.coord, Next(name, w, ev).coord, k);
    case Rotate(_) =>
      var w' := Next(name, w, ev);
      assert PendingOk(w'.coord) && TextsOk(w'.coord) && Bounded(w'.coord, k + 1);
      assert w'.coord.objects == w.coord.objects && FileOk(w');
  }

  // ---- Whole runs --------------------------------------------------------------------------

  ghost predicate RunOk(name: Naming, w: World, evs: seq<Event>)
    decreases |evs|
  {
    evs == [] || (EventOk(name, w, evs[0]) && RunOk(name, Next(name, w, evs[0]), evs[1..]))
  }

  ghost function After(name: Naming, w: World, evs: seq<Event>): World
    requires RunOk(name, w, evs)
    decreases |evs|
  {
    if evs == [] then w else After(name, Next(name, w, evs[0]), evs[1..])
  }

  /** No object is forgotten, no fence goes back, and as long as a fence stays its owner stays. */
  ghost predicate Later(a: map<Bytes, Owned>, b: map<Bytes, Owned>) {
    forall id :: id in a ==>
      id in b && a[id].fence <= b[id].fence && (a[id].fence == b[id].fence ==> a[id].owner == b[id].owner)
  }

  lemma {:induction false} RunKeeps(name: Naming, w: World, evs: seq<Event>, k: nat)
    requires WorldOk(w, k) && NamesAreTexts(name) && RunOk(name, w, evs) && k + |evs| <= U64_MAX
    ensures WorldOk(After(name, w, evs), k + |evs|) && Later(w.coord.objects, After(name, w, evs).coord.objects)
    decreases |evs|
  {
    hide Next, EventOk, PendingOk, TextsOk, FileOk, NamesAreTexts, Wrap;
    if evs != [] {
      NextKeeps(name, w, evs[0], k);
      var w1 := Next(name, w, evs[0]);
      RunKeeps(name, w1, evs[1..], k + 1);
      var a, b := w.coord.objects, w1.coord.objects;
      forall id | id in a
        ensures id in b && Wrap(a[id].fence + 1) == a[id].fence + 1
      {
        WrapSmall(a[id].fence + 1);
      }
      assert forall id :: id in a ==>
        id in b && a[id].fence <= b[id].fence <= k + 1 && (a[id].fence == b[id].fence ==> a[id].owner == b[id].owner);
    }
  }

  lemma InitialOk(leaseNs: u64, bootId: Bytes)
    ensures WorldOk(World(New(leaseNs, bootId), None), 0)
  {
  }

  // ---- The theorems ------------------------------------------------------------------------

  /** A run in two parts, from a coordinator started without a snapshot, with fewer events than fences. */
  ghost predicate TwoPhases(name: Naming, leaseNs: u64, bootId: Bytes, xs: seq<Event>, ys: seq<Event>) {
    var w0 := World(New(leaseNs, bootId), None);
    NamesAreTexts(name) && RunOk(name, w0, xs) && RunOk(name, After(name, w0, xs), ys) && |xs| + |ys| < U64_MAX
  }

  ghost function Between(name: Naming, leaseNs: u64, bootId: Bytes, xs: seq<Event>, ys: seq<Event>): (State, State)
    requires TwoPhases(name, leaseNs, bootId, xs, ys)
  {
    var w1 := After(name, World(New(leaseNs, bootId), None), xs);
    (w1.coord, After(name, w1, ys).coord)
  }

  /**
   * Between any two moments of any run, with any number of restarts: no object is forgotten, its fence never
   * decreases, an (object, fence) pair has one owner forever, and a pending migration always carries fence + 1.
   */
  lemma OneOwnerPerFence(name: Naming, leaseNs: u64, bootId: Bytes, xs: seq<Event>, ys: seq<Event>, id: Bytes)
    requires TwoPhases(name, leaseNs, bootId, xs, ys)
    ensures var (s, t) := Between(name, leaseNs, bootId, xs, ys);
      && (id in s.objects ==>
          && id in t.objects && s.objects[id].fence <= t.objects[id].fence
          && (s.objects[id].fence == t.objects[id].fence ==> s.objects[id].owner == t.objects[id].owner))
      && (id in t.migrations ==> id in t.objects && t.migrations[id].toFence == t.objects[id].fence + 1)
  {
    hide RunOk, NamesAreTexts, FileOk, Tidy, Later, After;
    BothOk(name, leaseNs, bootId, xs, ys);
    var (s, t) := Between(name, leaseNs, bootId, xs, ys);
    PendingIsNext(t, |xs| + |ys|, id);
    if id in s.objects {
      LaterAt(s.objects, t.objects, id);
    }
  }

  lemma PendingIsNext(s: State, k: nat, id: Bytes)
    requires Tidy(s, k) && k < U64_MAX
    ensures id in s.migrations ==> id in s.objects && s.migrations[id].toFence == s.objects[id].fence + 1
  {
    hide TextsOk, Wrap;
    if id in s.migrations {
      WrapSmall(s.objects[id].fence + 1);
    }
  }

  lemma LaterAt(a: map<Bytes, Owned>, b: map<Bytes, Owned>, id: Bytes)
    requires Later(a, b) && id in a
    ensures id in b && a[id].fence <= b[id].fence && (a[id].fence == b[id].fence ==> a[id].owner == b[id].owner)
  {
  }

  lemma BothOk(name: Naming, leaseNs: u64, bootId: Bytes, xs: seq<Event>, ys: seq<Event>)
    requires TwoPhases(name, leaseNs, bootId, xs, ys)
    ensures var w1 := After(name, World(New(leaseNs, bootId), None), xs); var w2 := After(name, w1, ys);
      WorldOk(w1, |xs|) && WorldOk(w2, |xs| + |ys|) && Later(w1.coord.objects, w2.coord.objects)
  {
    hide RunOk, NamesAreTexts, WorldOk, Later, After;
    InitialOk(leaseNs, bootId);
    var w0 := World(New(leaseNs, bootId), None);
    RunKeeps(name, w0, xs, 0);
    RunKeeps(name, After(name, w0, xs), ys, |xs|);
  }

  /** One more event: an owner changes only together with its fence, which then advances by exactly one. */
  lemma OwnerChangesWithFence(name: Naming, leaseNs: u64, bootId: Bytes, xs: seq<Event>, ev: Event, id: Bytes)
    requires TwoPhases(name, leaseNs, bootId, xs, [ev]) && id in Between(name, leaseNs, bootId, xs, [ev]).0.objects
    ensures var (s, t) := Between(name, leaseNs, bootId, xs, [ev]);
      && id in t.objects
      && (t.objects[id].owner != s.objects[id].owner ==> t.objects[id].fence == s.objects[id].fence + 1)
      && (t.objects[id].fence != s.objects[id].fence ==>
          && t.objects[id].fence == s.objects[id].fence + 1 && ev.Deliver?
          && ev.m == MigrateAck(id, t.objects[id].owner, t.objects[id].fence)
          && id in s.migrations && s.migrations[id] == Pending(t.objects[id].owner, t.objects[id].fence))
  {
    hide NamesAreTexts, TextsOk, FileOk, Handle, Load, RunOk, Wrap, EventOk;
    var w1 := After(name, World(New(leaseNs, bootId), None), xs);
    OneEvent(name, w1, ev);
    BothOk(name, leaseNs, bootId, xs, [ev]);
    match ev
    case Deliver(m, now, _) => HandleMoves(name, w1.coord, m, now, id);
    case Reboot(newLease, newBoot) => RebootKeeps(w1, newLease, newBoot, |xs|);
    case Rotate(_) =>
  }

  lemma HandleMoves(name: Naming, s: State, m: Message, now: u64, id: Bytes)
    requires PendingOk(s) && id in s.objects && s.objects[id].fence < U64_MAX
    ensures var t := Handle(name, s, m, now).0;
      && id in t.objects
      && (t.objects[id].owner != s.objects[id].owner || t.objects[id].fence != s.objects[id].fence ==>
          && t.objects[id].fence == s.objects[id].fence + 1
          && m == MigrateAck(id, t.objects[id].owner, t.objects[id].fence)
          && id in s.migrations && s.migrations[id] == Pending(t.objects[id].owner, t.objects[id].fence))
  {
    hide Wrap;
    WrapSmall(s.objects[id].fence + 1);
  }

  lemma OneEvent(name: Naming, w: World, ev: Event)
    requires RunOk(name, w, [ev])
    ensures EventOk(name, w, ev) && After(name, w, [ev]) == Next(name, w, ev)
  {
    assert [ev][1..] == [];
    assert RunOk(name, Next(name, w, ev), []);
  }

  /** A lease is granted exactly to the current fence; once the fence has passed `f`, never again to `f`. */
  lemma StaleLeaseNeverGranted(name: Naming, leaseNs: u64, bootId: Bytes, xs: seq<Event>, ys: seq<Event>, id: Bytes,
                               f: u64, now: u64)
    requires TwoPhases(name, leaseNs, bootId, xs, ys)
    ensures var (s, t) := Between(name, leaseNs, bootId, xs, ys);
      && (Handle(name, t, LeaseRenew(id, f), now).1.Ok? <==> id in t.objects && t.objects[id].fence == f)
      && (id in s.objects && f < s.objects[id].fence ==> Handle(name, t, LeaseRenew(id, f), now).1 == Err(Authority))
  {
    hide RunOk, NamesAreTexts;
    BothOk(name, leaseNs, bootId, xs, ys);
  }

  /** Restarting never loses an owner, and always loads. */
  lemma RestartPreservesOwners(name: Naming, leaseNs: u64, bootId: Bytes, xs: seq<Event>, newLease: u64, newBoot: Bytes)
    requires TwoPhases(name, leaseNs, bootId, xs, [])
    ensures var w := After(name, World(New(leaseNs, bootId), None), xs);
      var (t, r) := Load(New(newLease, newBoot), w.file, newBoot);
      r.Ok? && SameOwners(w.coord.objects, t.objects) && t.migrations == map[]
  {
    hide RunOk, NamesAreTexts, Load, WorldOk;
    BothOk(name, leaseNs, bootId, xs, []);
    RebootKeeps(After(name, World(New(leaseNs, bootId), None), xs), newLease, newBoot, |xs|);
  }

  /**
   * The fence is a machine word. Committing a pending migration raises it if and only if it was not the largest word;
   * from the largest word it falls to zero.
   */
  lemma CommitRaisesFenceIff(s: State, id: Bytes, newOwner: Bytes, fence: u64)
    requires PendingOk(s) && OnAck(s, id, newOwner, fence).1.Ok?
    ensures var t := OnAck(s, id, newOwner, fence).0;
      && id in s.objects && t.objects[id].owner == newOwner
      && (t.objects[id].fence > s.objects[id].fence <==> s.objects[id].fence < U64_MAX)
      && (s.objects[id].fence == U64_MAX ==> t.objects[id].fence == 0)
  {
  }
}

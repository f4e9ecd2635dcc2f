/** What the protocol is for gets done: a first store makes an owner, a lookup brings a copy, a migration moves one. */
module ClusterProgress {
  import opened Prelude
  import opened Wire
  import opened Compat
  import opened Coordination
  import opened Cluster
  import opened ClusterMigrations
  import R = CoordinatorRuns

  /** One safe step in front of a run. */
  lemma Then(t: Setting, s: Net, e: Step, rest: seq<Step>) returns (steps: seq<Step>)
    requires Possible(t, s, e) && MigratesSafely(s, e) && RunOk(t, Next(t, s, e), rest)
    ensures |steps| == |rest| + 1 && RunOk(t, s, steps) && After(t, s, steps) == After(t, Next(t, s, e), rest)
  {
    hide Possible, Next, MigratesSafely;
    steps := [e] + rest;
    assert steps[1..] == rest;
  }

  lemma ThreeSteps(t: Setting, s: Net, e1: Step, e2: Step, e3: Step) returns (steps: seq<Step>)
    requires !e1.AskMigrate? && !e2.AskMigrate? && !e3.AskMigrate?
    requires Possible(t, s, e1)
    requires var s1 := Next(t, s, e1); Possible(t, s1, e2) && Possible(t, Next(t, s1, e2), e3)
    ensures |steps| == 3 && RunOk(t, s, steps)
    ensures After(t, s, steps) == Next(t, Next(t, Next(t, s, e1), e2), e3)
  {
    hide Possible, Next;
    var s1 := Next(t, s, e1);
    var s2 := Next(t, s1, e2);
    var none: seq<Step> := [];
    assert RunOk(t, Next(t, s2, e3), none) && After(t, Next(t, s2, e3), none) == Next(t, s2, e3);
    var last := Then(t, s2, e3, none);
    var both := Then(t, s1, e2, last);
    steps := Then(t, s, e1, both);
  }

  /** An object that nobody owns: the node that is given it first owns it three steps later, with the bytes given. */
  lemma FirstWriterOwns(t: Setting, s: Net, n: Bytes, copy: Copy, compat: Bytes, now: u64) returns (steps: seq<Step>)
    requires copy.compat in t.keys && t.name(copy.address) !in StoreOf(s, n)
    requires t.name(copy.address) !in s.coord.coord.objects && ShortText(n) && |compat| < TWO_64
    requires ShortText(copy.address.namespace) && ShortText(copy.address.key)
    ensures |steps| == 3 && RunOk(t, s, steps)
    ensures var s', id := After(t, s, steps), t.name(copy.address);
      && id in s'.coord.coord.objects && s'.coord.coord.objects[id] == Owned(n, 0, s.coord.coord.epoch)
      && id in s'.truth && s'.truth[id] == copy && id in StoreOf(s', n) && StoreOf(s', n)[id] == copy
  {
    hide ShortText, Possible, Next, RunOk, After;
    var a := copy.address;
    var e1 := FirstStore(t, s, n, copy);
    var s1 := Next(t, s, e1);
    var e2 := Ask(t, s1, n, a, compat, now);
    var s2 := Next(t, s1, e2);
    SameStores(s1, s2);
    var e3 := Claim(t, s2, n, a, compat, now);
    SameStores(s2, Next(t, s2, e3));
    steps := ThreeSteps(t, s, e1, e2, e3);
  }

  // ---- Replicas ----------------------------------------------------------------------------

  lemma FindOwner(t: Setting, s: Net, n: Bytes, a: Address, key: CompatKey, now: u64) returns (step: Step)
    requires var id, c := t.name(a), s.coord.coord;
      id in c.objects && c.objects[id].owner != n && c.objects[id].owner in c.nodes
    requires key in t.keys && ShortText(a.namespace) && ShortText(a.key) && |Encode(key)| < TWO_64
    ensures !step.AskMigrate? && Possible(t, s, step)
    ensures var s', c := Next(t, s, step), s.coord.coord;
      && s'.stores == s.stores && s'.truth == s.truth && s'.coord.coord == c
      && OwnerFound(n, a, key, c.nodes[c.objects[t.name(a)].owner]) in s'.tasks
  {
    hide Snapshot, ShortText, Encode;
    assert Address(a.namespace, a.key, a.generation) == a;
    var order := SomeOrder(s.coord.coord.objects);
    step := PeerLookup(n, a, key, now, order);
  }

  lemma FetchFrom(t: Setting, s: Net, n: Bytes, a: Address, key: CompatKey, addr: Bytes) returns (step: Step)
    requires OwnerFound(n, a, key, addr) in s.tasks
    requires var store, id := StoreOf(s, t.resolve(addr)), t.name(a); id in store && store[id].compat == key
    ensures !step.AskMigrate? && Possible(t, s, step)
    ensures var s', store := Next(t, s, step), StoreOf(s, t.resolve(addr));
      && s'.stores == s.stores && s'.truth == s.truth && s'.coord == s.coord
      && Fetched(n, a, key, store[t.name(a)].bytes) in s'.tasks
  {
    step := FetchReplica(OwnerFound(n, a, key, addr), Luck(false, false));
  }

  lemma Keep(t: Setting, s: Net, n: Bytes, a: Address, key: CompatKey, data: Bytes) returns (step: Step)
    requires Fetched(n, a, key, data) in s.tasks
    ensures !step.AskMigrate? && Possible(t, s, step)
    ensures var s', id := Next(t, s, step), t.name(a);
      && s'.truth == s.truth && s'.coord == s.coord
      && id in StoreOf(s', n)
      && StoreOf(s', n)[id] == (if id in StoreOf(s, n) then StoreOf(s, n)[id] else Copy(a, key, data))
  {
    step := KeepReplica(Fetched(n, a, key, data), Luck(false, false));
  }

  /**
   * A lookup at a node without a copy, under the compatibility key of the object, leaves that node with the
   * authoritative copy three steps later; the owner stays.
   */
  lemma ReplicaArrives(t: Setting, s: Net, k: nat, n: Bytes, a: Address, now: u64) returns (steps: seq<Step>)
    requires SettingOk(t) && NetOk(t, s, k)
    requires var id, c := t.name(a), s.coord.coord;
      && id in c.objects && c.objects[id].owner != n && c.objects[id].owner in c.nodes && id !in StoreOf(s, n)
      && |Encode(s.truth[id].compat)| < TWO_64
    requires ShortText(a.namespace) && ShortText(a.key)
    ensures |steps| == 3 && RunOk(t, s, steps)
    ensures var s' := After(t, s, steps); HoldsTruth(s', n, t.name(a)) && s'.coord.coord == s.coord.coord
  {
    hide ShortText, Possible, Next, RunOk, After, Encode, R.WorldOk, TasksOk, SettingOk;
    var id, c := t.name(a), s.coord.coord;
    var owner, key := c.objects[id].owner, s.truth[id].compat;
    assert HoldsTruth(s, owner, id);
    assert CopyOk(t, id, StoreOf(s, owner)[id]) && t.resolve(c.nodes[owner]) == owner;
    var e1 := FindOwner(t, s, n, a, key, now);
    var s1 := Next(t, s, e1);
    SameStores(s, s1);
    var e2 := FetchFrom(t, s1, n, a, key, c.nodes[owner]);
    var s2 := Next(t, s1, e2);
    SameStores(s1, s2);
    var e3 := Keep(t, s2, n, a, key, s.truth[id].bytes);
    steps := ThreeSteps(t, s, e1, e2, e3);
  }

  // ---- Migrations --------------------------------------------------------------------------

  /**
   * A migration asked of a node with the authoritative copy, under a fence that is not stale, to a node with none or
   * the same: five steps later the new node owns the object under the next fence and holds the authoritative copy.
   */
  lemma MigrationCompletes(t: Setting, s: Net, k: nat, n: Bytes, id: Bytes, newOwner: Bytes, addr: Bytes, fence: u64,
                           now: u64)
    returns (steps: seq<Step>)
    requires SettingOk(t) && NetOk(t, s, k) && k < U64_MAX && HoldsTruth(s, n, id) && t.resolve(addr) == newOwner
    requires id in StoreOf(s, newOwner) ==> Same(StoreOf(s, newOwner)[id], s.truth[id])
    requires id in s.coord.coord.objects && fence >= s.coord.coord.objects[id].fence
    requires ShortText(newOwner) && ShortText(addr)
    ensures |steps| == 5 && RunOk(t, s, steps)
    ensures var s' := After(t, s, steps);
      && id in s'.coord.coord.objects && s'.coord.coord.objects[id].owner == newOwner
      && s'.coord.coord.objects[id].fence == s.coord.coord.objects[id].fence + 1 && HoldsTruth(s', newOwner, id)
  {
    hide ShortText, Possible, Next, RunOk, After, R.WorldOk, TasksOk, SettingOk, Wrap, NodesResolve, OwnersHoldTruth;
    var ask := AskMigrate(n, id, newOwner, addr, fence);
    assert Possible(t, s, ask) by { AskPossible(t, s, ask); }
    AskEffect(t, s, ask);
    IdIsText(s, k, id);
    var copy, toFence := StoreOf(s, n)[id], Wrap(s.coord.coord.objects[id].fence + 1);
    assert CopyOk(t, id, copy);
    NextFence(s, k, id);
    var s0 := Next(t, s, ask);
    SameStores(s, s0);
    var e1 := Instruct(t, s0, n, id, newOwner, addr, fence, now);
    var s1 := Next(t, s0, e1);
    SameStores(s0, s1);
    var e2 := ClusterMigrations.Load(t, s1, n, id, newOwner, addr, toFence);
    var s2 := Next(t, s1, e2);
    SameStores(s1, s2);
    var e3 := Push(t, s2, id, copy, newOwner, addr, toFence);
    var s3 := Next(t, s2, e3);
    var e4 := Commit(t, s3, id, newOwner, toFence, now);
    SameStores(s3, Next(t, s3, e4));
    var rest := FourSteps(t, s0, e1, e2, e3, e4);
    steps := Then(t, s, ask, rest);
  }

  lemma NextFence(s: Net, k: nat, id: Bytes)
    requires R.WorldOk(s.coord, k) && k < U64_MAX && id in s.coord.coord.objects
    ensures Wrap(s.coord.coord.objects[id].fence + 1) == s.coord.coord.objects[id].fence + 1
  {
  }

  // ---- Refusals ----------------------------------------------------------------------------

  /**
   * What ends an activity: an owner that is known, a copy that is missing, unreadable or of another compatibility
   * identity, an instruction that is refused, a target that holds something else.
   */
  ghost predicate Ends(t: Setting, s: Net, step: Step) {
    match step
    case AskOwner(k, _, _, _) => k.Stored? && t.name(k.address) in s.coord.coord.objects
    case FetchReplica(k, luck) =>
      && k.OwnerFound?
      && var store, id := StoreOf(s, t.resolve(k.addr)), t.name(k.address);
         id !in store || luck.unreadable || t.identify(store[id].compat) != t.identify(k.compat)
    case SendMigrate(k, _, _) =>
      && k.Requested?
      && (k.id !in s.coord.coord.objects || k.fence < s.coord.coord.objects[k.id].fence)
    case LoadCopy(k, luck) => k.Instructed? && (k.id !in StoreOf(s, k.node) || luck.unreadable)
    case PushCopy(k, luck) =>
      && k.Loaded?
      && var store, id := StoreOf(s, t.resolve(k.addr)), t.name(k.copy.address);
         luck.refused || (id in store && (luck.unreadable || store[id].bytes != k.copy.bytes
           || t.identify(store[id].compat) != t.identify(k.copy.compat)))
    case _ => false
  }

  /** An activity that ends starts no other, and changes no copy, no owner and no pending migration. */
  lemma EndedChangesNothing(t: Setting, s: Net, step: Step, node: Bytes)
    requires Possible(t, s, step) && Ends(t, s, step)
    ensures var s' := Next(t, s, step);
      s'.tasks == s.tasks && StoreOf(s', node) == StoreOf(s, node) && s'.truth == s.truth
        && s'.coord.coord == s.coord.coord
  {
    hide Snapshot, ShortText;
    if step.AskOwner? {
      var a := step.task.address;
      assert Address(a.namespace, a.key, a.generation) == a;
    }
  }
}

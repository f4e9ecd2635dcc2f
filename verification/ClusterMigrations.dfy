/**
 * Which migrations can replace authoritative bytes: exactly those asked of a node without the authoritative copy, to a
 * new owner without it, that do not hold different copies. And a run from the start in which one does.
 */
module ClusterMigrations {
  import opened Prelude
  import opened Wire
  import opened Compat
  import opened Coordination
  import opened Cluster
  import R = CoordinatorRuns

  // ---- Extending runs ----------------------------------------------------------------------

  lemma {:induction false} RunSnoc(t: Setting, s: Net, steps: seq<Step>, step: Step)
    requires RunOk(t, s, steps) && Possible(t, After(t, s, steps), step) && MigratesSafely(After(t, s, steps), step)
    ensures RunOk(t, s, steps + [step]) && After(t, s, steps + [step]) == Next(t, After(t, s, steps), step)
    decreases |steps|
  {
    hide Possible, MigratesSafely, Next;
    if steps == [] {
      assert [step][1..] == [] && steps + [step] == [step];
      assert RunOk(t, Next(t, s, step), []);
    } else {
      assert (steps + [step])[1..] == steps[1..] + [step];
      RunSnoc(t, Next(t, s, steps[0]), steps[1..], step);
    }
  }

  lemma {:induction false} SomeOrder(objects: map<Bytes, Owned>) returns (order: seq<Bytes>)
    ensures Enumerates(order, objects)
    decreases |objects|
  {
    if objects == map[] {
      order := [];
    } else {
      var id :| id in objects;
      var rest := objects - {id};
      assert rest.Keys == objects.Keys - {id} && |rest.Keys| == |rest| && |objects.Keys| == |objects|;
      var tail := SomeOrder(rest);
      order := [id] + tail;
      assert forall i :: 1 <= i < |order| ==> order[i] == tail[i - 1] && tail[i - 1] in rest.Keys;
    }
  }

  // ---- A harmful migration, step by step ---------------------------------------------------

  lemma Instruct(t: Setting, s: Net, n: Bytes, id: Bytes, newOwner: Bytes, addr: Bytes, fence: u64, now: u64)
    returns (step: Step)
    requires Requested(n, id, newOwner, addr, fence) in s.tasks && id in s.coord.coord.objects
    requires fence >= s.coord.coord.objects[id].fence
    requires ShortText(id) && ShortText(newOwner) && ShortText(addr)
    ensures !step.AskMigrate? && Possible(t, s, step)
    ensures var s' := Next(t, s, step); var toFence := Wrap(s.coord.coord.objects[id].fence + 1);
      && s'.stores == s.stores && s'.truth == s.truth && s'.coord.coord.objects == s.coord.coord.objects
      && Instructed(n, id, newOwner, addr, toFence) in s'.tasks
      && id in s'.coord.coord.migrations && s'.coord.coord.migrations[id] == Pending(newOwner, toFence)
  {
    hide Snapshot, ShortText, Wrap;
    var order := SomeOrder(s.coord.coord.objects);
    step := SendMigrate(Requested(n, id, newOwner, addr, fence), now, order);
  }

  lemma Load(t: Setting, s: Net, n: Bytes, id: Bytes, newOwner: Bytes, addr: Bytes, fence: u64) returns (step: Step)
    requires Instructed(n, id, newOwner, addr, fence) in s.tasks && id in StoreOf(s, n)
    ensures !step.AskMigrate? && Possible(t, s, step)
    ensures var s' := Next(t, s, step);
      && s'.stores == s.stores && s'.truth == s.truth && s'.coord == s.coord
      && Loaded(id, StoreOf(s, n)[id], newOwner, addr, fence) in s'.tasks
  {
    step := LoadCopy(Instructed(n, id, newOwner, addr, fence), Luck(false, false));
  }

  /** The new owner takes a copy it lacks, or recognises one it has. */
  lemma Push(t: Setting, s: Net, id: Bytes, copy: Copy, newOwner: Bytes, addr: Bytes, fence: u64) returns (step: Step)
    requires Loaded(id, copy, newOwner, addr, fence) in s.tasks && t.name(copy.address) == id
    requires t.resolve(addr) == newOwner
    requires id in StoreOf(s, newOwner) ==> Same(StoreOf(s, newOwner)[id], copy)
    ensures !step.AskMigrate? && Possible(t, s, step)
    ensures var s' := Next(t, s, step);
      && s'.coord == s.coord && s'.truth == s.truth && Pushed(id, newOwner, fence) in s'.tasks
      && id in StoreOf(s', newOwner) && Same(StoreOf(s', newOwner)[id], copy)
  {
    step := PushCopy(Loaded(id, copy, newOwner, addr, fence), Luck(false, false));
  }

  lemma Commit(t: Setting, s: Net, id: Bytes, newOwner: Bytes, fence: u64, now: u64) returns (step: Step)
    requires Pushed(id, newOwner, fence) in s.tasks && id in s.coord.coord.objects && ShortText(id)
    requires ShortText(newOwner)
    requires id in s.coord.coord.migrations && s.coord.coord.migrations[id] == Pending(newOwner, fence)
    ensures !step.AskMigrate? && Possible(t, s, step)
    ensures var s' := Next(t, s, step);
      s'.stores == s.stores && s'.truth == s.truth && id in s'.coord.coord.objects
        && s'.coord.coord.objects[id].owner == newOwner && s'.coord.coord.objects[id].fence == fence
  {
    hide Snapshot, ShortText;
    var order := SomeOrder(s.coord.coord.objects[id := Owned(newOwner, fence, s.coord.coord.epoch)]);
    step := SendAck(Pushed(id, newOwner, fence), now, order);
  }

  /** The asked node has a copy that is not authoritative, and the new owner has none or the same. */
  ghost predicate Harmful(s: Net, n: Bytes, newOwner: Bytes, id: Bytes) {
    && id in StoreOf(s, n) && !HoldsTruth(s, n, id)
    && (id in StoreOf(s, newOwner) ==> Same(StoreOf(s, newOwner)[id], StoreOf(s, n)[id]))
  }

  /** Four steps make the new owner authoritative with the copy of the asked node. */
  lemma HarmIsDone(t: Setting, s: Net, n: Bytes, id: Bytes, newOwner: Bytes, addr: Bytes, fence: u64, now: u64)
    returns (steps: seq<Step>)
    requires StoresOk(t, s) && Harmful(s, n, newOwner, id) && id in s.truth && t.resolve(addr) == newOwner
    requires Requested(n, id, newOwner, addr, fence) in s.tasks && id in s.coord.coord.objects
    requires fence >= s.coord.coord.objects[id].fence
    requires ShortText(id) && ShortText(newOwner) && ShortText(addr)
    ensures |steps| == 4 && RunOk(t, s, steps) && After(t, s, steps).truth == s.truth
    ensures var s' := After(t, s, steps);
      && id in s'.coord.coord.objects && s'.coord.coord.objects[id].owner == newOwner && !HoldsTruth(s', newOwner, id)
      && id in StoreOf(s', newOwner) && Same(StoreOf(s', newOwner)[id], StoreOf(s, n)[id])
  {
    hide ShortText, Wrap, Possible, Next, RunOk, After, StoresOk;
    var copy := StoreOf(s, n)[id];
    assert CopyOk(t, id, copy) by { CopyIsOk(t, s, n, id); }
    var toFence := Wrap(s.coord.coord.objects[id].fence + 1);
    var e1 := Instruct(t, s, n, id, newOwner, addr, fence, now);
    var s1 := Next(t, s, e1);
    var e2 := Load(t, s1, n, id, newOwner, addr, toFence);
    var s2 := Next(t, s1, e2);
    var e3 := Push(t, s2, id, copy, newOwner, addr, toFence);
    var s3 := Next(t, s2, e3);
    var e4 := Commit(t, s3, id, newOwner, toFence, now);
    steps := FourSteps(t, s, e1, e2, e3, e4);
  }

  lemma CopyIsOk(t: Setting, s: Net, n: Bytes, id: Bytes)
    requires StoresOk(t, s) && id in StoreOf(s, n)
    ensures CopyOk(t, id, StoreOf(s, n)[id])
  {
  }

  lemma FourSteps(t: Setting, s: Net, e1: Step, e2: Step, e3: Step, e4: Step) returns (steps: seq<Step>)
    requires !e1.AskMigrate? && !e2.AskMigrate? && !e3.AskMigrate? && !e4.AskMigrate? && Possible(t, s, e1)
    requires Possible(t, Next(t, s, e1), e2) && Possible(t, Next(t, Next(t, s, e1), e2), e3)
    requires Possible(t, Next(t, Next(t, Next(t, s, e1), e2), e3), e4)
    ensures |steps| == 4 && RunOk(t, s, steps)
    ensures After(t, s, steps) == Next(t, Next(t, Next(t, Next(t, s, e1), e2), e3), e4)
  {
    hide Possible, Next;
    assert RunOk(t, s, []) && After(t, s, []) == s;
    RunSnoc(t, s, [], e1);
    RunSnoc(t, s, [] + [e1], e2);
    RunSnoc(t, s, [] + [e1] + [e2], e3);
    RunSnoc(t, s, [] + [e1] + [e2] + [e3], e4);
    steps := [] + [e1] + [e2] + [e3] + [e4];
  }

  // ---- A node without a copy can be given a wrong one --------------------------------------

  /** A copy that is not authoritative, and that the new owner would take or recognise. */
  lemma WrongCopy(t: Setting, s: Net, id: Bytes, newOwner: Bytes) returns (copy: Copy)
    requires OwnersHoldTruth(s) && StoresOk(t, s) && id in s.coord.coord.objects && !HoldsTruth(s, newOwner, id)
    ensures CopyOk(t, id, copy) && id in s.truth && !Same(copy, s.truth[id])
    ensures id in StoreOf(s, newOwner) ==> Same(StoreOf(s, newOwner)[id], copy)
  {
    assert id in s.truth;
    if id in StoreOf(s, newOwner) {
      copy := StoreOf(s, newOwner)[id];
      CopyIsOk(t, s, newOwner, id);
    } else {
      var owner := s.coord.coord.objects[id].owner;
      assert HoldsTruth(s, owner, id);
      CopyIsOk(t, s, owner, id);
      var o := StoreOf(s, owner)[id];
      copy := o.(bytes := o.bytes + [0]);
      assert |copy.bytes| != |o.bytes|;
    }
  }

  lemma Plant(t: Setting, s: Net, n: Bytes, id: Bytes, copy: Copy) returns (step: Step)
    requires CopyOk(t, id, copy) && id !in StoreOf(s, n)
    ensures !step.AskMigrate? && Possible(t, s, step)
    ensures var s' := Next(t, s, step);
      && s'.coord == s.coord && s'.truth == s.truth && s.tasks <= s'.tasks
      && StoreOf(s', n) == StoreOf(s, n)[id := copy] && forall o :: o != n ==> StoreOf(s', o) == StoreOf(s, o)
  {
    step := ClientStore(n, copy, Luck(false, false));
  }

  lemma PlantedIsHarmful(s: Net, s': Net, n: Bytes, newOwner: Bytes, id: Bytes, copy: Copy)
    requires s'.truth == s.truth && id in s.truth && !Same(copy, s.truth[id]) && id in StoreOf(s', n)
    requires StoreOf(s', n)[id] == copy
    requires id in StoreOf(s, newOwner) ==> Same(StoreOf(s, newOwner)[id], copy)
    requires forall o :: o != n ==> StoreOf(s', o) == StoreOf(s, o)
    ensures Harmful(s', n, newOwner, id)
  {
  }

  // ---- The exact condition -----------------------------------------------------------------

  /**
   * An unsafe migration can be followed by a run that leaves the object with an owner without the authoritative copy.
   */
  lemma UnsafeCanHarm(t: Setting, s: Net, k: nat, ask: Step, now: u64) returns (steps: seq<Step>)
    requires SettingOk(t) && NetOk(t, s, k) && ask.AskMigrate? && Possible(t, s, ask) && k + 6 <= U64_MAX
    requires ask.id in s.coord.coord.objects && ask.fence >= s.coord.coord.objects[ask.id].fence
    requires ShortText(ask.newOwner) && ShortText(ask.addr)
    requires !SafeToMigrate(s, ask.node, ask.newOwner, ask.id)
    ensures |steps| <= 5 && RunOk(t, Next(t, s, ask), steps) && !OwnersHoldTruth(After(t, Next(t, s, ask), steps))
  {
    hide ShortText, Possible, Next, RunOk, After, R.WorldOk, TasksOk, NodesResolve, StoresOk, HoldsTruth, Same;
    var n, id, newOwner, addr := ask.node, ask.id, ask.newOwner, ask.addr;
    AskEffect(t, s, ask);
    var s1 := Next(t, s, ask);
    assert ShortText(id) by { IdIsText(s, k, id); }
    StoresCarry(t, s, s1);
    if id in StoreOf(s, n) {
      assert Harmful(s1, n, newOwner, id) by { AlreadyHarmful(s, s1, n, newOwner, id); }
      steps := HarmIsDone(t, s1, n, id, newOwner, addr, ask.fence, now);
    } else {
      assert !HoldsTruth(s, newOwner, id);
      var copy := WrongCopy(t, s, id, newOwner);
      SameStores(s, s1);
      var e := Plant(t, s1, n, id, copy);
      var s2 := Next(t, s1, e);
      PlantedIsHarmful(s, s2, n, newOwner, id, copy) by { SameStores(s, s1); }
      StoresPlanted(t, s1, s2, n, id, copy);
      var rest := HarmIsDone(t, s2, n, id, newOwner, addr, ask.fence, now);
      steps := StepThen(t, s1, e, rest);
    }
    LosesTruth(After(t, s1, steps), id, newOwner);
  }

  lemma LosesTruth(s: Net, id: Bytes, newOwner: Bytes)
    requires id in s.coord.coord.objects && s.coord.coord.objects[id].owner == newOwner && !HoldsTruth(s, newOwner, id)
    ensures !OwnersHoldTruth(s)
  {
  }

  lemma StepThen(t: Setting, s: Net, e: Step, rest: seq<Step>) returns (steps: seq<Step>)
    requires !e.AskMigrate? && Possible(t, s, e) && RunOk(t, Next(t, s, e), rest)
    ensures |steps| == |rest| + 1 && RunOk(t, s, steps) && After(t, s, steps) == After(t, Next(t, s, e), rest)
  {
    hide Possible, Next;
    steps := [e] + rest;
    assert steps[1..] == rest;
  }

  lemma AskEffect(t: Setting, s: Net, ask: Step)
    requires ask.AskMigrate? && Possible(t, s, ask)
    ensures var s' := Next(t, s, ask);
      && s'.coord == s.coord && s'.stores == s.stores && s'.truth == s.truth
      && Requested(ask.node, ask.id, ask.newOwner, ask.addr, ask.fence) in s'.tasks
      && t.resolve(ask.addr) == ask.newOwner
  {
  }

  lemma IdIsText(s: Net, k: nat, id: Bytes)
    requires R.WorldOk(s.coord, k) && id in s.coord.coord.objects
    ensures ShortText(id)
  {
    hide ShortText, R.FileOk, R.PendingOk;
  }

  lemma StoresCarry(t: Setting, s: Net, s': Net)
    requires StoresOk(t, s) && s'.stores == s.stores
    ensures StoresOk(t, s')
  {
    SameStores(s, s');
  }

  lemma SameStores(s: Net, s': Net)
    requires s'.stores == s.stores
    ensures forall n :: StoreOf(s', n) == StoreOf(s, n)
  {
  }

  lemma StoresPlanted(t: Setting, s: Net, s': Net, n: Bytes, id: Bytes, copy: Copy)
    requires StoresOk(t, s) && CopyOk(t, id, copy) && (forall o :: o != n ==> StoreOf(s', o) == StoreOf(s, o))
    requires StoreOf(s', n) == StoreOf(s, n)[id := copy]
    ensures StoresOk(t, s')
  {
  }

  lemma AlreadyHarmful(s: Net, s': Net, n: Bytes, newOwner: Bytes, id: Bytes)
    requires !SafeToMigrate(s, n, newOwner, id) && id in StoreOf(s, n) && s'.stores == s.stores && s'.truth == s.truth
    ensures Harmful(s', n, newOwner, id)
  {
  }

  /** Whatever follows, every owner holds the authoritative copy. */
  ghost predicate AlwaysAuthoritative(t: Setting, s: Net, room: nat) {
    forall steps :: |steps| <= room && RunOk(t, s, steps) ==> OwnersHoldTruth(After(t, s, steps))
  }

  /**
   * The exact condition. A migration that the coordinator would accept leaves authority intact in every continuation if
   * and only if one of the two nodes holds the authoritative copy or they hold different copies.
   */
  lemma MigrationSafeIff(t: Setting, s: Net, k: nat, ask: Step)
    requires SettingOk(t) && NetOk(t, s, k) && ask.AskMigrate? && Possible(t, s, ask) && k + 6 <= U64_MAX
    requires ask.id in s.coord.coord.objects && ask.fence >= s.coord.coord.objects[ask.id].fence
    requires ShortText(ask.newOwner) && ShortText(ask.addr)
    ensures AlwaysAuthoritative(t, Next(t, s, ask), U64_MAX - k - 1) <==>
      SafeToMigrate(s, ask.node, ask.newOwner, ask.id)
  {
    hide ShortText, Possible, Next, RunOk, After, SettingOk, SafeToMigrate, R.WorldOk, StoresOk, NodesResolve, TasksOk;
    hide OwnersHoldTruth;
    if SafeToMigrate(s, ask.node, ask.newOwner, ask.id) {
      NextKeeps(t, s, ask, k);
      var s1 := Next(t, s, ask);
      forall steps | |steps| <= U64_MAX - k - 1 && RunOk(t, s1, steps)
        ensures OwnersHoldTruth(After(t, s1, steps))
      {
        RunKeeps(t, s1, steps, k + 1);
      }
    } else {
      var steps := UnsafeCanHarm(t, s, k, ask, 0);
    }
  }

  // ---- A run from the start ----------------------------------------------------------------

  /** Two nodes are given different bytes for one address; the first becomes owner; the second is asked to migrate. */
  datatype Case = Case(first: Bytes, second: Bytes, third: Bytes, addr: Bytes, copy: Copy, other: Bytes, compat: Bytes,
    now: u64)

  ghost predicate CaseOk(t: Setting, c: Case) {
    && SettingOk(t) && c.first != c.second && c.first != c.third && c.second != c.third && c.other != c.copy.bytes
    && c.copy.compat in t.keys && t.resolve(c.addr) == c.third && |c.compat| < TWO_64
    && ShortText(c.first) && ShortText(c.third) && ShortText(c.addr) && ShortText(c.copy.address.namespace)
    && ShortText(c.copy.address.key)
  }

  function Stray(c: Case): Copy {
    c.copy.(bytes := c.other)
  }

  /** The first node owns the object, the second holds other bytes, the third nothing. */
  ghost predicate Split(t: Setting, c: Case, s: Net) {
    var id := t.name(c.copy.address);
    && id in s.coord.coord.objects && s.coord.coord.objects[id] == Owned(c.first, 0, s.coord.coord.epoch)
    && id in s.truth && s.truth[id] == c.copy && id in StoreOf(s, c.first) && StoreOf(s, c.first)[id] == c.copy
    && id in StoreOf(s, c.second) && StoreOf(s, c.second)[id] == Stray(c) && id !in StoreOf(s, c.third)
  }

  lemma Ask(t: Setting, s: Net, n: Bytes, a: Address, compat: Bytes, now: u64) returns (step: Step)
    requires Stored(n, a) in s.tasks && t.name(a) !in s.coord.coord.objects && ShortText(a.namespace)
    requires ShortText(a.key) && |compat| < TWO_64
    ensures !step.AskMigrate? && Possible(t, s, step)
    ensures var s' := Next(t, s, step);
      && s'.stores == s.stores && s'.truth == s.truth && s'.coord.coord == s.coord.coord && Unowned(n, a) in s'.tasks
  {
    hide Snapshot, ShortText;
    assert Address(a.namespace, a.key, a.generation) == a;
    var order := SomeOrder(s.coord.coord.objects);
    step := AskOwner(Stored(n, a), compat, now, order);
  }

  lemma Claim(t: Setting, s: Net, n: Bytes, a: Address, compat: Bytes, now: u64) returns (step: Step)
    requires Unowned(n, a) in s.tasks && t.name(a) !in s.coord.coord.objects && t.name(a) in StoreOf(s, n)
    requires ShortText(a.namespace) && ShortText(a.key) && |compat| < TWO_64 && ShortText(n)
    ensures !step.AskMigrate? && Possible(t, s, step)
    ensures var s' := Next(t, s, step); var id := t.name(a);
      && s'.stores == s.stores && s'.truth == s.truth[id := StoreOf(s, n)[id]]
      && s'.coord.coord == s.coord.coord.(objects := s.coord.coord.objects[id := Owned(n, 0, s.coord.coord.epoch)])
  {
    hide Snapshot, ShortText;
    assert Address(a.namespace, a.key, a.generation) == a;
    var order := SomeOrder(s.coord.coord.objects[t.name(a) := Owned(n, 0, s.coord.coord.epoch)]);
    step := SendCreate(Unowned(n, a), 0, compat, now, order);
  }

  lemma FirstStore(t: Setting, s: Net, n: Bytes, copy: Copy) returns (step: Step)
    requires copy.compat in t.keys && t.name(copy.address) !in StoreOf(s, n)
    ensures !step.AskMigrate? && Possible(t, s, step)
    ensures var s' := Next(t, s, step); var id := t.name(copy.address);
      && s'.coord == s.coord && s'.truth == s.truth && Stored(n, copy.address) in s'.tasks
      && id in StoreOf(s', n) && StoreOf(s', n)[id] == copy && forall o :: o != n ==> StoreOf(s', o) == StoreOf(s, o)
  {
    step := ClientStore(n, copy, Luck(false, false));
  }

  lemma CopiesSplit(t: Setting, c: Case, s0: Net) returns (steps: seq<Step>)
    requires CaseOk(t, c) && Initial(s0)
    ensures |steps| == 4 && RunOk(t, s0, steps) && Split(t, c, After(t, s0, steps))
  {
    hide ShortText, Possible, Next, RunOk, After, SettingOk;
    var a := c.copy.address;
    assert forall n :: StoreOf(s0, n) == map[];
    var e1 := FirstStore(t, s0, c.first, c.copy);
    var s1 := Next(t, s0, e1);
    assert s1.coord.coord.objects == map[];
    var e2 := Ask(t, s1, c.first, a, c.compat, c.now);
    var s2 := Next(t, s1, e2);
    SameStores(s1, s2);
    var e3 := Claim(t, s2, c.first, a, c.compat, c.now);
    var s3 := Next(t, s2, e3);
    SameStores(s2, s3);
    var e4 := FirstStore(t, s3, c.second, Stray(c));
    steps := FourSteps(t, s0, e1, e2, e3, e4);
  }

  /**
   * The run: after four steps the first node owns the object; a migration to the third node is asked of the second,
   * which holds other bytes; four steps later the third node owns the object and holds those other bytes.
   */
  lemma StrayCopyTakesOver(t: Setting, c: Case, s0: Net) returns (xs: seq<Step>, ask: Step, ys: seq<Step>)
    requires CaseOk(t, c) && Initial(s0)
    ensures RunOk(t, s0, xs) && ask.AskMigrate? && Possible(t, After(t, s0, xs), ask)
    ensures RunOk(t, Next(t, After(t, s0, xs), ask), ys)
    ensures var id := t.name(c.copy.address); var s := After(t, s0, xs); var s' := After(t, Next(t, s, ask), ys);
      && OwnerHas(s, id, c.copy)
      && id in s'.coord.coord.objects && s'.coord.coord.objects[id].owner == c.third
      && id in StoreOf(s', c.third) && StoreOf(s', c.third)[id].bytes == c.other && c.other != c.copy.bytes
  {
    hide ShortText, Possible, Next, RunOk, After, SettingOk, R.WorldOk, TasksOk, NodesResolve, StoresOk;
    hide OwnersHoldTruth;
    var id := t.name(c.copy.address);
    xs := CopiesSplit(t, c, s0);
    InitialOk(t, s0);
    RunKeeps(t, s0, xs, 0);
    var s := After(t, s0, xs);
    ask := AskMigrate(c.second, id, c.third, c.addr, 0);
    assert Possible(t, s, ask) by { AskPossible(t, s, ask); }
    AskEffect(t, s, ask);
    var s1 := Next(t, s, ask);
    assert ShortText(id) by { IdIsText(s, |xs|, id); }
    StoresCarry(t, s, s1);
    assert Harmful(s1, c.second, c.third, id) by { SameStores(s, s1); }
    ys := HarmIsDone(t, s1, c.second, id, c.third, c.addr, 0, c.now);
    SameStores(s, s1);
  }

  lemma AskPossible(t: Setting, s: Net, ask: Step)
    requires ask.AskMigrate? && t.resolve(ask.addr) == ask.newOwner
    ensures Possible(t, s, ask)
  {
  }
}

/** What the coordinator tells those who ask, in any state; and that it never tells two nodes they hold one object. */
module CoordinatorReplies {
  import opened Prelude
  import opened Compat
  import opened Messages
  import opened Coordination
  import R = CoordinatorRuns

  // ---- One reply ---------------------------------------------------------------------------

  /**
   * A claim is acknowledged if and only if the claimant owns the object afterwards; the acknowledgement then names that
   * owner, its stored fence and the current epoch. A refusal changes nothing, and so does a repeated claim.
   */
  lemma CreateIsAcknowledgedToOwner(name: Naming, s: State, namespace: Bytes, key: Bytes, generation: u64, byteLen: u64,
                                    compat: Bytes, nodeId: Bytes, now: u64)
    ensures var id := name(Address(namespace, key, generation));
      var (t, r) := Handle(name, s, Create(namespace, key, generation, byteLen, compat, nodeId), now);
      && id in t.objects && (r.Ok? <==> t.objects[id].owner == nodeId)
      && (r.Ok? ==> r.value == [CreateAck(id, t.epoch, t.objects[id].fence, t.objects[id].owner)])
      && (r.Err? ==> r.error == Authority)
      && (id in s.objects ==> t == s)
      && (id !in s.objects ==>
          t == s.(objects := s.objects[id := t.objects[id]]) && t.objects[id] == Owned(nodeId, 0, s.epoch))
  {
  }

  /** A lookup tells whether the object is owned, by whom, and that node's address if it has registered one. */
  lemma LookupNamesOwner(name: Naming, s: State, namespace: Bytes, key: Bytes, generation: u64, compat: Bytes, now: u64)
    ensures var id := name(Address(namespace, key, generation));
      var (t, r) := Handle(name, s, Lookup(namespace, key, generation, compat), now);
      && t == s && r.Ok? && |r.value| == 1 && r.value[0].LookupResult? && r.value[0].generation == generation
      && (r.value[0].found <==> id in s.objects)
      && (forall node :: r.value[0].owner == Some(node) <==> id in s.objects && s.objects[id].owner == node)
      && (forall addr :: r.value[0].ownerAddr == Some(addr) <==>
           id in s.objects && s.objects[id].owner in s.nodes && s.nodes[s.objects[id].owner] == addr)
  {
  }

  /** A lease is granted to the stored fence, until the lease time from now; on overflow the clock wraps. */
  lemma LeaseRunsFromNow(name: Naming, s: State, id: Bytes, fence: u64, now: u64)
    ensures var (t, r) := Handle(name, s, LeaseRenew(id, fence), now);
      && t == s && (r.Ok? <==> id in s.objects && fence == s.objects[id].fence)
      && (r.Ok? ==>
          && |r.value| == 1 && r.value[0].LeaseGrant? && r.value[0].objectId == id
          && r.value[0].epoch == s.epoch && r.value[0].fence == fence
          && r.value[0].expiresNs ==
             (if now + s.leaseNs <= U64_MAX then now + s.leaseNs else now + s.leaseNs - U64_MAX - 1))
      && (r.Err? ==> r.error == if id in s.objects then Authority else NotFound)
  {
  }

  /**
   * A migration is accepted if and only if the object exists and the fence given is not below the stored one. It is
   * then pending with the next fence, and the reply names the new owner at the address it registered, if any.
   */
  lemma MigrationIsAccepted(name: Naming, s: State, id: Bytes, newOwner: Bytes, addr: Bytes, fence: u64, now: u64)
    ensures var (t, r) := Handle(name, s, Migrate(id, newOwner, addr, fence), now);
      && (r.Ok? <==> id in s.objects && fence >= s.objects[id].fence)
      && (r.Err? ==> t == s && r.error == if id in s.objects then Authority else NotFound)
      && (r.Ok? ==>
          && id in t.migrations && t == s.(migrations := s.migrations[id := t.migrations[id]])
          && t.migrations[id].newOwner == newOwner
          && (s.objects[id].fence < U64_MAX ==> t.migrations[id].toFence == s.objects[id].fence + 1)
          && |r.value| == 1 && r.value[0].Migrate? && r.value[0].objectId == id && r.value[0].newOwner == newOwner
          && r.value[0].fence == t.migrations[id].toFence
          && (newOwner in s.nodes ==> r.value[0].newOwnerAddr == s.nodes[newOwner])
          && (newOwner !in s.nodes ==> r.value[0].newOwnerAddr == addr))
  {
  }

  /** An acknowledgement commits exactly the pending migration it names, once. */
  lemma AckCommitsPending(name: Naming, s: State, id: Bytes, newOwner: Bytes, fence: u64, now: u64)
    ensures var (t, r) := Handle(name, s, MigrateAck(id, newOwner, fence), now);
      && (r.Ok? <==> id in s.migrations && s.migrations[id].newOwner == newOwner && s.migrations[id].toFence == fence)
      && (r.Err? ==> t == s && r.error == Authority)
      && (r.Ok? ==>
          && r.value == [] && id !in t.migrations && (forall o :: o in t.migrations <==> o in s.migrations && o != id)
          && (forall o :: o in t.migrations ==> t.migrations[o] == s.migrations[o])
          && t.objects.Keys == s.objects.Keys
          && (id in t.objects ==> t.objects[id] == Owned(newOwner, fence, s.epoch))
          && (forall o :: o in t.objects && o != id ==> t.objects[o] == s.objects[o])
          && t == s.(objects := t.objects, migrations := t.migrations)
          && Handle(name, t, MigrateAck(id, newOwner, fence), now) == (t, Err(Authority)))
  {
  }

  /** A node that registers is known under its address and is told the epoch, the boot identity and the lease time. */
  lemma RegistrationIsAnswered(name: Naming, s: State, nodeId: Bytes, addr: Bytes, now: u64)
    ensures var (t, r) := Handle(name, s, Register(nodeId, addr), now);
      && nodeId in t.nodes && t.nodes[nodeId] == addr
      && (forall n :: n in s.nodes && n != nodeId ==> n in t.nodes && t.nodes[n] == s.nodes[n])
      && t == s.(nodes := t.nodes) && t.nodes.Keys == s.nodes.Keys + {nodeId}
      && r == Ok([Hello(s.epoch, s.bootId, nodeId, addr, s.leaseNs)])
  {
  }

  /** Whatever else arrives changes nothing. */
  lemma OthersChangeNothing(name: Naming, s: State, m: Message, now: u64)
    requires !m.Register? && !m.Create? && !m.Migrate? && !m.MigrateAck?
    ensures Handle(name, s, m, now).0 == s
    ensures !m.Lookup? && !m.LeaseRenew? ==>
      var r := Handle(name, s, m, now).1;
      && r.Ok? && |r.value| == (if m.Heartbeat? then 0 else 1)
      && (!m.Heartbeat? ==> r.value[0].Failure? && r.value[0].code == UNSUPPORTED)
  {
  }

  // ---- Replies over whole runs -------------------------------------------------------------

  /** The event is a claim that is acknowledged to `holder` under the fence. */
  ghost predicate Tells(name: Naming, w: R.World, ev: R.Event, id: Bytes, fence: u64, holder: Bytes) {
    && ev.Deliver? && ev.m.Create?
    && var r := Handle(name, w.coord, ev.m, ev.now).1;
       r.Ok? && exists epoch :: r.value == [CreateAck(id, epoch, fence, holder)]
  }

  lemma ToldIsOwner(name: Naming, w: R.World, ev: R.Event, id: Bytes, fence: u64, holder: Bytes)
    requires R.EventOk(name, w, ev) && Tells(name, w, ev, id, fence, holder)
    ensures var objects := R.Next(name, w, ev).coord.objects;
      id in objects && objects[id].owner == holder && objects[id].fence == fence
  {
    hide Snapshot;
    var m := ev.m;
    CreateIsAcknowledgedToOwner(name, w.coord, m.namespace, m.key, m.generation, m.byteLen, m.compat, m.nodeId, ev.now);
  }

  /** At any two moments of any run with restarts, those told that they hold an object under one fence are one node. */
  lemma OneHolderPerFence(name: Naming, leaseNs: u64, bootId: Bytes, xs: seq<R.Event>, first: R.Event, ys: seq<R.Event>,
                          second: R.Event, id: Bytes, fence: u64, a: Bytes, b: Bytes)
    requires var w0 := R.World(New(leaseNs, bootId), None);
      && R.NamesAreTexts(name) && R.RunOk(name, w0, xs) && |xs| + |ys| + 2 < U64_MAX
      && var w1 := R.After(name, w0, xs);
      && R.EventOk(name, w1, first) && Tells(name, w1, first, id, fence, a)
      && R.RunOk(name, R.Next(name, w1, first), ys)
      && var w2 := R.After(name, R.Next(name, w1, first), ys);
      && R.EventOk(name, w2, second) && Tells(name, w2, second, id, fence, b)
    ensures a == b
  {
    hide R.RunOk, R.EventOk, R.Next, R.After, R.NamesAreTexts, R.WorldOk, Tells;
    var w0 := R.World(New(leaseNs, bootId), None);
    R.InitialOk(leaseNs, bootId);
    R.RunKeeps(name, w0, xs, 0);
    var w1 := R.After(name, w0, xs);
    ToldIsOwner(name, w1, first, id, fence, a);
    R.NextKeeps(name, w1, first, |xs|);
    var w1' := R.Next(name, w1, first);
    R.RunKeeps(name, w1', ys, |xs| + 1);
    var w2 := R.After(name, w1', ys);
    ToldIsOwner(name, w2, second, id, fence, b);
    R.NextKeeps(name, w2, second, |xs| + 1 + |ys|);
    FenceBelow(w2, |xs| + 1 + |ys|, id);
    SameFenceSameOwner(w1'.coord.objects, w2.coord.objects, R.Next(name, w2, second).coord.objects, id);
  }

  lemma FenceBelow(w: R.World, k: nat, id: Bytes)
    requires R.WorldOk(w, k) && id in w.coord.objects
    ensures w.coord.objects[id].fence <= k
  {
  }

  lemma SameFenceSameOwner(x: map<Bytes, Owned>, y: map<Bytes, Owned>, z: map<Bytes, Owned>, id: Bytes)
    requires R.Later(x, y) && R.Moves(y, z) && id in x && id in z && x[id].fence == z[id].fence
    requires id in y && y[id].fence < U64_MAX
    ensures x[id].owner == z[id].owner
  {
    R.WrapSmall(y[id].fence + 1);
  }
}

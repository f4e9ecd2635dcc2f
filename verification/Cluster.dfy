/**
 * Nodes and the coordinator together. Every exchange a node has with the coordinator or a peer is one step, and all
 * steps interleave freely: requests overlap, replies are delayed, acknowledgements arrive late, twice or never, and
 * the coordinator restarts from its snapshot at any moment. A node's cache appears as the write-once map it refines.
 */
module Cluster {
  import opened Prelude
  import opened Wire
  import opened Compat
  import opened Messages
  import opened Coordination
  import M = Manifests
  import R = CoordinatorRuns

  /** A node's copy of an object. */
  datatype Copy = Copy(address: Address, compat: CompatKey, bytes: Bytes)

  type LocalStore = map<Bytes, Copy>

  /**
   * How objects are named, compatibility keys identified and addresses resolved, and the keys that occur in the run.
   */
  datatype Setting = Setting(name: Naming, identify: CompatKey -> Digest, resolve: Bytes -> Bytes,
    keys: iset<CompatKey>)

  /** Identities tell the keys of the run apart; names are texts. */
  ghost predicate SettingOk(t: Setting) {
    && R.NamesAreTexts(t.name)
    && forall k, l :: k in t.keys && l in t.keys && t.identify(k) == t.identify(l) ==> k == l
  }

  /**
   * With hexadecimal digests for names and identities, no collision among the encodings of the run is all that is
   * needed.
   */
  lemma CanonicalSetting(c: Content, known: iset<Bytes>, t: Setting)
    requires NoCollision(c, known)
    requires forall a :: t.name(a) == M.ToHex(ObjectId(c, a))
    requires forall k :: t.identify(k) == CompatId(c, k)
    requires forall k :: k in t.keys ==> WellTyped(k) && Encode(k) in known
    ensures SettingOk(t)
  {
    hide Encode, WellTyped, M.ToHex;
    forall a
      ensures ShortText(t.name(a))
    {
      M.HexIsText(ObjectId(c, a));
    }
    forall k, l | k in t.keys && l in t.keys && t.identify(k) == t.identify(l)
      ensures k == l
    {
      assert c.hash(Encode(k)) == c.hash(Encode(l));
      EncodeInjective(k, l);
    }
  }

  /** How far an activity of a node has got. */
  datatype Task =
    | Stored(node: Bytes, address: Address)                                        // held locally, owner not asked yet
    | Unowned(node: Bytes, address: Address)                                       // the coordinator knew no owner
    | OwnerFound(node: Bytes, address: Address, compat: CompatKey, addr: Bytes)    // a replica is wanted from `addr`
    | Fetched(node: Bytes, address: Address, compat: CompatKey, data: Bytes)
    | Requested(node: Bytes, id: Bytes, newOwner: Bytes, addr: Bytes, fence: u64)  // a migration was asked of this node
    | Instructed(node: Bytes, id: Bytes, newOwner: Bytes, addr: Bytes, fence: u64)
    | Loaded(id: Bytes, copy: Copy, newOwner: Bytes, addr: Bytes, fence: u64)
    | Pushed(id: Bytes, newOwner: Bytes, fence: u64)

  /** `truth` is what each object's first owner held when it became owner. */
  datatype Net = Net(coord: R.World, stores: map<Bytes, LocalStore>, tasks: set<Task>, truth: map<Bytes, Copy>)

  function StoreOf(s: Net, node: Bytes): LocalStore {
    if node in s.stores then s.stores[node] else map[]
  }

  /** The outcome of a step may depend on the node's cache refusing to admit, or being unable to read back. */
  datatype Luck = Luck(refused: bool, unreadable: bool)

  /** Serve a Store: register, or find an identical copy; otherwise fail and change nothing. */
  function StoreLocally(t: Setting, store: LocalStore, copy: Copy, luck: Luck): (LocalStore, bool) {
    var id := t.name(copy.address);
    if luck.refused then (store, false)
    else if id !in store then (store[id := copy], true)
    else (store, t.identify(store[id].compat) == t.identify(copy.compat) && !luck.unreadable
      && store[id].bytes == copy.bytes)
  }

  // ---- Steps -------------------------------------------------------------------------------

  datatype Step =
    | ClientStore(node: Bytes, copy: Copy, luck: Luck)
    | AskOwner(task: Task, compat: Bytes, now: u64, order: seq<Bytes>)
    | SendCreate(task: Task, byteLen: u64, compat: Bytes, now: u64, order: seq<Bytes>)
    | PeerLookup(node: Bytes, address: Address, key: CompatKey, now: u64, order: seq<Bytes>)
    | FetchReplica(task: Task, luck: Luck)
    | KeepReplica(task: Task, luck: Luck)
    | AskMigrate(node: Bytes, id: Bytes, newOwner: Bytes, addr: Bytes, fence: u64)
    | SendMigrate(task: Task, now: u64, order: seq<Bytes>)
    | LoadCopy(task: Task, luck: Luck)
    | PushCopy(task: Task, luck: Luck)
    | SendAck(task: Task, now: u64, order: seq<Bytes>)
    | CoordinatorOnly(ev: R.Event)

  /** The message a step sends to the coordinator, if any. */
  function Sent(step: Step): Option<Message> {
    match step
    case AskOwner(Stored(_, a), compat, _, _) => Some(Lookup(a.namespace, a.key, a.generation, compat))
    case SendCreate(Unowned(n, a), byteLen, compat, _, _) =>
      Some(Create(a.namespace, a.key, a.generation, byteLen, compat, n))
    case PeerLookup(_, a, key, _, _) => Some(Lookup(a.namespace, a.key, a.generation, Encode(key)))
    case SendMigrate(Requested(_, id, newOwner, addr, fence), _, _) => Some(Migrate(id, newOwner, addr, fence))
    case SendAck(Pushed(id, newOwner, fence), _, _) => Some(MigrateAck(id, newOwner, fence))
    case _ => None
  }

  function CoordinatorEvent(step: Step): Option<R.Event> {
    if step.CoordinatorOnly? then Some(step.ev)
    else if Sent(step).Some?
      && (step.AskOwner? || step.SendCreate? || step.PeerLookup? || step.SendMigrate? || step.SendAck?) then
      Some(R.Deliver(Sent(step).value, step.now, step.order))
    else None
  }

  /** Other traffic at the coordinator: restarts, truthful node registrations, and messages that move no ownership. */
  ghost predicate Harmless(t: Setting, ev: R.Event) {
    ev.Deliver? ==>
      !ev.m.Create? && !ev.m.Migrate? && !ev.m.MigrateAck? && (ev.m.Register? ==> t.resolve(ev.m.addr) == ev.m.nodeId)
  }

  /** The step continues an activity at the right point. */
  predicate Continues(s: Net, step: Step) {
    match step
    case AskOwner(k, _, _, _) => k in s.tasks && k.Stored?
    case SendCreate(k, _, _, _, _) => k in s.tasks && k.Unowned?
    case FetchReplica(k, _) => k in s.tasks && k.OwnerFound?
    case KeepReplica(k, _) => k in s.tasks && k.Fetched?
    case SendMigrate(k, _, _) => k in s.tasks && k.Requested?
    case LoadCopy(k, _) => k in s.tasks && k.Instructed?
    case PushCopy(k, _) => k in s.tasks && k.Loaded?
    case SendAck(k, _, _) => k in s.tasks && k.Pushed?
    case _ => true
  }

  /** What can happen, apart from where migrations start. */
  ghost predicate Possible(t: Setting, s: Net, step: Step) {
    && Continues(s, step)
    && (CoordinatorEvent(step).Some? ==> R.EventOk(t.name, s.coord, CoordinatorEvent(step).value))
    && (step.ClientStore? ==> step.copy.compat in t.keys)
    && (step.PeerLookup? ==> step.key in t.keys)
    && (step.AskMigrate? ==> t.resolve(step.addr) == step.newOwner)
    && (step.CoordinatorOnly? ==> Harmless(t, step.ev))
  }

  /** The coordinator's reply to what the step sends. */
  function Reply(t: Setting, s: Net, step: Step): Result<seq<Message>> {
    var ev := CoordinatorEvent(step);
    if ev.Some? && ev.value.Deliver? then Handle(t.name, s.coord.coord, ev.value.m, ev.value.now).1 else Ok([])
  }

  /** What a step stores, where. */
  function Placed(t: Setting, s: Net, step: Step): Option<(Bytes, Copy)> {
    match step
    case ClientStore(node, copy, luck) => Some((node, copy))
    case PushCopy(Loaded(_, copy, _, addr, _), luck) => Some((t.resolve(addr), copy))
    case KeepReplica(Fetched(node, a, compat, data), luck) => Some((node, Copy(a, compat, data)))
    case _ => None
  }

  function LuckOf(step: Step): Luck {
    match step
    case ClientStore(_, _, luck) => luck
    case PushCopy(_, luck) => luck
    case KeepReplica(_, luck) => luck
    case _ => Luck(true, true)
  }

  function NewStores(t: Setting, s: Net, step: Step): map<Bytes, LocalStore> {
    match Placed(t, s, step)
    case None => s.stores
    case Some((node, copy)) => s.stores[node := StoreLocally(t, StoreOf(s, node), copy, LuckOf(step)).0]
  }

  function NewTasks(t: Setting, s: Net, step: Step): set<Task> {
    var reply := Reply(t, s, step);
    match step
    case ClientStore(node, copy, luck) =>
      if StoreLocally(t, StoreOf(s, node), copy, luck).1 then {Stored(node, copy.address)} else {}
    case AskOwner(Stored(n, a), _, _, _) =>
      if reply.Ok? && |reply.value| == 1 && reply.value[0].LookupResult? && !reply.value[0].found then {Unowned(n, a)}
        else {}
    case PeerLookup(n, a, key, _, _) =>
      if && reply.Ok? && |reply.value| == 1 && reply.value[0].LookupResult? && reply.value[0].found
         && reply.value[0].owner != Some(n) && reply.value[0].ownerAddr.Some?
      then {OwnerFound(n, a, key, reply.value[0].ownerAddr.value)} else {}
    case FetchReplica(OwnerFound(n, a, compat, addr), luck) =>
      var store, id := StoreOf(s, t.resolve(addr)), t.name(a);
      if id in store && t.identify(store[id].compat) == t.identify(compat) && !luck.unreadable then
        {Fetched(n, a, compat, store[id].bytes)} else {}
    case AskMigrate(n, id, newOwner, addr, fence) => {Requested(n, id, newOwner, addr, fence)}
    case SendMigrate(Requested(n, _, _, addr, _), _, _) =>
      if reply.Ok? && |reply.value| == 1 && reply.value[0].Migrate? then
        {Instructed(n, reply.value[0].objectId, reply.value[0].newOwner, addr, reply.value[0].fence)} else {}
    case LoadCopy(Instructed(n, id, newOwner, addr, fence), luck) =>
      if id in StoreOf(s, n) && !luck.unreadable then {Loaded(id, StoreOf(s, n)[id], newOwner, addr, fence)} else {}
    case PushCopy(Loaded(id, copy, newOwner, addr, fence), luck) =>
      if StoreLocally(t, StoreOf(s, t.resolve(addr)), copy, luck).1 then
        {Stored(t.resolve(addr), copy.address), Pushed(id, newOwner, fence)} else {}
    case _ => {}
  }

  /** The first successful creation fixes what the object is. */
  function NewTruth(t: Setting, s: Net, step: Step): map<Bytes, Copy> {
    match step
    case SendCreate(Unowned(n, a), _, _, _, _) =>
      var id := t.name(a);
      if id !in s.coord.coord.objects && id in StoreOf(s, n) then s.truth[id := StoreOf(s, n)[id]] else s.truth
    case _ => s.truth
  }

  ghost function Next(t: Setting, s: Net, step: Step): Net
    requires Possible(t, s, step)
  {
    var ev := CoordinatorEvent(step);
    Net(if ev.Some? then R.Next(t.name, s.coord, ev.value) else s.coord,
          NewStores(t, s, step), s.tasks + NewTasks(t, s, step), NewTruth(t, s, step))
  }

  // ---- The invariant -----------------------------------------------------------------------

  predicate Same(x: Copy, y: Copy) {
    x.compat == y.compat && x.bytes == y.bytes
  }

  ghost predicate Holds(s: Net, node: Bytes, id: Bytes) {
    id in StoreOf(s, node)
  }

  /** The node holds the authoritative bytes and compatibility key. */
  ghost predicate HoldsTruth(s: Net, node: Bytes, id: Bytes) {
    id in s.truth && id in StoreOf(s, node) && Same(StoreOf(s, node)[id], s.truth[id])
  }

  /** Two nodes hold different copies under one identity. */
  ghost predicate Differ(s: Net, m: Bytes, n: Bytes, id: Bytes) {
    id in StoreOf(s, m) && id in StoreOf(s, n) && !Same(StoreOf(s, m)[id], StoreOf(s, n)[id])
  }

  /**
   * Migrating an object from `node` to `newOwner` can do no harm: one of the two holds the authoritative copy, or they
   * hold different copies, so that the push is refused.
   */
  ghost predicate SafeToMigrate(s: Net, node: Bytes, newOwner: Bytes, id: Bytes) {
    HoldsTruth(s, node, id) || HoldsTruth(s, newOwner, id) || Differ(s, node, newOwner, id)
  }

  /** Migrations are asked for only where they can do no harm. */
  ghost predicate MigratesSafely(s: Net, step: Step) {
    step.AskMigrate? ==> SafeToMigrate(s, step.node, step.newOwner, step.id)
  }

  /** Pushing the copy to the node can do no harm. */
  ghost predicate SafeCopy(s: Net, copy: Copy, newOwner: Bytes, id: Bytes) {
    || (id in s.truth && Same(copy, s.truth[id]))
    || HoldsTruth(s, newOwner, id)
    || (id in StoreOf(s, newOwner) && !Same(StoreOf(s, newOwner)[id], copy))
  }

  ghost predicate CopyOk(t: Setting, id: Bytes, c: Copy) {
    c.compat in t.keys && t.name(c.address) == id
  }

  ghost predicate TaskOk(t: Setting, s: Net, k: Task) {
    match k
    case Stored(n, a) => Holds(s, n, t.name(a))
    case Unowned(n, a) => Holds(s, n, t.name(a))
    case OwnerFound(_, a, compat, addr) => compat in t.keys && HoldsTruth(s, t.resolve(addr), t.name(a))
    case Fetched(_, a, compat, data) =>
      compat in t.keys && t.name(a) in s.truth && Same(Copy(a, compat, data), s.truth[t.name(a)])
    case Requested(n, id, newOwner, addr, _) => SafeToMigrate(s, n, newOwner, id) && t.resolve(addr) == newOwner
    case Instructed(n, id, newOwner, addr, _) => SafeToMigrate(s, n, newOwner, id) && t.resolve(addr) == newOwner
    case Loaded(id, copy, newOwner, addr, _) =>
      SafeCopy(s, copy, newOwner, id) && CopyOk(t, id, copy) && t.resolve(addr) == newOwner
    case Pushed(id, newOwner, _) => HoldsTruth(s, newOwner, id)
  }

  ghost predicate OwnersHoldTruth(s: Net) {
    && s.truth.Keys == s.coord.coord.objects.Keys
    && forall id :: id in s.coord.coord.objects ==> HoldsTruth(s, s.coord.coord.objects[id].owner, id)
  }

  ghost predicate StoresOk(t: Setting, s: Net) {
    forall n, id :: id in StoreOf(s, n) ==> CopyOk(t, id, StoreOf(s, n)[id])
  }

  ghost predicate NodesResolve(t: Setting, s: Net) {
    forall n :: n in s.coord.coord.nodes ==> t.resolve(s.coord.coord.nodes[n]) == n
  }

  ghost predicate TasksOk(t: Setting, s: Net) {
    forall k :: k in s.tasks ==> TaskOk(t, s, k)
  }

  ghost predicate NetOk(t: Setting, s: Net, k: nat) {
    R.WorldOk(s.coord, k) && OwnersHoldTruth(s) && StoresOk(t, s) && NodesResolve(t, s) && TasksOk(t, s)
  }

  // ---- Copies and the truth only grow ------------------------------------------------------

  /** Local copies and the truth are write-once. */
  ghost predicate Grows(s: Net, s': Net) {
    && (forall n, id :: id in StoreOf(s, n) ==> id in StoreOf(s', n) && StoreOf(s', n)[id] == StoreOf(s, n)[id])
    && (forall id :: id in s.truth ==> id in s'.truth && s'.truth[id] == s.truth[id])
  }

  lemma StoreGrows(t: Setting, s: Net, step: Step)
    requires Possible(t, s, step) && s.truth.Keys == s.coord.coord.objects.Keys
    ensures Grows(s, Next(t, s, step))
  {
    hide R.EventOk, R.Next, CoordinatorEvent, Reply, NewTasks, Harmless;
  }

  lemma GrownTasks(t: Setting, s: Net, s': Net)
    requires TasksOk(t, s) && Grows(s, s')
    ensures forall k :: k in s.tasks ==> TaskOk(t, s', k)
  {
    forall k | k in s.tasks
      ensures TaskOk(t, s', k)
    {
      assert TaskOk(t, s, k);
    }
  }

  lemma GrownHolds(s: Net, s': Net, n: Bytes, id: Bytes)
    requires HoldsTruth(s, n, id) && Grows(s, s')
    ensures HoldsTruth(s', n, id)
  {
  }

  lemma GrownSafe(s: Net, s': Net, n: Bytes, newOwner: Bytes, id: Bytes)
    requires SafeToMigrate(s, n, newOwner, id) && Grows(s, s')
    ensures SafeToMigrate(s', n, newOwner, id)
  {
  }

  // ---- Storing -----------------------------------------------------------------------------

  /** A store that succeeds leaves the node with the same bytes and compatibility key as the copy. */
  lemma StoredSame(t: Setting, store: LocalStore, copy: Copy, luck: Luck)
    requires SettingOk(t) && copy.compat in t.keys && forall id :: id in store ==> CopyOk(t, id, store[id])
    ensures var (after, ok) := StoreLocally(t, store, copy, luck); var id := t.name(copy.address);
      && (forall i :: i in after ==> CopyOk(t, i, after[i]))
      && (ok ==> id in after && Same(after[id], copy))
  {
  }

  lemma PlacedOk(t: Setting, s: Net, step: Step, k: nat)
    requires SettingOk(t) && NetOk(t, s, k) && Possible(t, s, step)
    ensures StoresOk(t, Next(t, s, step))
    ensures Placed(t, s, step).Some? ==>
      var (node, copy) := Placed(t, s, step).value;
      copy.compat in t.keys &&
      (StoreLocally(t, StoreOf(s, node), copy, LuckOf(step)).1 ==>
        t.name(copy.address) in StoreOf(Next(t, s, step), node)
          && Same(StoreOf(Next(t, s, step), node)[t.name(copy.address)], copy))
  {
    hide R.WorldOk, R.EventOk, R.Next, CoordinatorEvent, Reply, NewTasks, Harmless, StoreLocally, OwnersHoldTruth;
    hide NodesResolve, SettingOk;
    if step.PushCopy? || step.KeepReplica? {
      assert TaskOk(t, s, step.task);
    }
    if Placed(t, s, step).Some? {
      var (node, copy) := Placed(t, s, step).value;
      StoredSame(t, StoreOf(s, node), copy, LuckOf(step));
      var s' := Next(t, s, step);
      forall n, id | id in StoreOf(s', n)
        ensures CopyOk(t, id, StoreOf(s', n)[id])
      {
        assert n != node ==> StoreOf(s', n) == StoreOf(s, n);
      }
    } else {
      assert forall n :: StoreOf(Next(t, s, step), n) == StoreOf(s, n);
    }
  }

  // ---- The coordinator's part --------------------------------------------------------------

  /** Only a creation adds an object, only an acknowledgement moves one. */
  ghost predicate OwnersMove(t: Setting, step: Step, a: map<Bytes, Owned>, b: map<Bytes, Owned>) {
    && (forall id :: id in a ==>
       && id in b
       && (b[id].owner == a[id].owner ||
           (step.SendAck? && step.task.Pushed? && step.task.id == id && b[id].owner == step.task.newOwner)))
    && (forall id :: id in b && id !in a ==>
       step.SendCreate? && step.task.Unowned? && id == t.name(step.task.address) && b[id].owner == step.task.node)
    && (step.SendCreate? && step.task.Unowned? ==> t.name(step.task.address) in b)
  }

  /** Who owns what after a step: only a creation adds an object, only an acknowledgement moves one. */
  lemma OwnersAfter(t: Setting, s: Net, step: Step, k: nat)
    requires SettingOk(t) && NetOk(t, s, k) && k < U64_MAX && Possible(t, s, step)
    ensures OwnersMove(t, step, s.coord.coord.objects, Next(t, s, step).coord.coord.objects)
    ensures NodesResolve(t, Next(t, s, step))
  {
    hide R.WorldOk, R.EventOk, NewStores, NewTasks, NewTruth, OwnersHoldTruth, StoresOk, TasksOk, SettingOk, Snapshot;
    hide Load, Handle, OwnersMove;
    var ev := CoordinatorEvent(step);
    if ev.None? {
      NobodyMoves(t, s, step);
    } else {
      match ev.value
      case Deliver(m, now, _) =>
        DeliveryMoves(t.name, s.coord.coord, m, now);
        SentMoves(t, s, step, m, now);
      case Reboot(leaseNs, bootId) =>
        R.RebootKeeps(s.coord, leaseNs, bootId, k);
        QuietMoves(t, step, s.coord.coord.objects, Next(t, s, step).coord.coord.objects);
      case Rotate(_) =>
        QuietMoves(t, step, s.coord.coord.objects, s.coord.coord.objects);
    }
  }

  lemma NobodyMoves(t: Setting, s: Net, step: Step)
    requires Possible(t, s, step) && CoordinatorEvent(step).None?
    ensures !step.SendCreate? && OwnersMove(t, step, s.coord.coord.objects, s.coord.coord.objects)
  {
    hide R.EventOk;
  }

  lemma QuietMoves(t: Setting, step: Step, a: map<Bytes, Owned>, b: map<Bytes, Owned>)
    requires SameOwners(a, b) && step.CoordinatorOnly?
    ensures OwnersMove(t, step, a, b)
  {
  }

  ghost predicate Delivered(name: Naming, m: Message, a: map<Bytes, Owned>, b: map<Bytes, Owned>) {
    && (forall id :: id in a ==>
       id in b && (b[id].owner == a[id].owner || (m.MigrateAck? && m.objectId == id && b[id].owner == m.newOwner)))
    && (forall id :: id in b && id !in a ==>
       m.Create? && id == name(Address(m.namespace, m.key, m.generation)) && b[id].owner == m.nodeId)
    && (m.Create? ==> name(Address(m.namespace, m.key, m.generation)) in b)
  }

  lemma DeliveryMoves(name: Naming, s: Coordination.State, m: Message, now: u64)
    ensures var after := Handle(name, s, m, now).0;
      && Delivered(name, m, s.objects, after.objects)
      && after.nodes == if m.Register? then s.nodes[m.nodeId := m.addr] else s.nodes
  {
    hide Wrap;
  }

  lemma SentMoves(t: Setting, s: Net, step: Step, m: Message, now: u64)
    requires Possible(t, s, step) && CoordinatorEvent(step).Some? && CoordinatorEvent(step).value.Deliver?
    requires CoordinatorEvent(step).value.m == m
    requires Delivered(t.name, m, s.coord.coord.objects, Handle(t.name, s.coord.coord, m, now).0.objects)
    ensures OwnersMove(t, step, s.coord.coord.objects, Handle(t.name, s.coord.coord, m, now).0.objects)
    ensures m.Register? ==> t.resolve(m.addr) == m.nodeId
  {
    hide R.EventOk, Handle, Encode;
    if step.SendCreate? {
      var a := step.task.address;
      assert Address(a.namespace, a.key, a.generation) == a;
    }
  }

  lemma TruthKept(t: Setting, s: Net, step: Step, k: nat)
    requires SettingOk(t) && NetOk(t, s, k) && k < U64_MAX && Possible(t, s, step)
    ensures OwnersHoldTruth(Next(t, s, step))
  {
    hide R.WorldOk, Possible, Next, StoresOk, NodesResolve, SettingOk, HoldsTruth, Grows;
    var s' := Next(t, s, step);
    OwnersAfter(t, s, step, k);
    StoreGrows(t, s, step);
    if step.SendAck? || step.SendCreate? {
      StepTask(t, s, step);
    }
    TruthKeys(t, s, step, k);
    forall id | id in s'.coord.coord.objects
      ensures HoldsTruth(s', s'.coord.coord.objects[id].owner, id)
    {
      if id in s.coord.coord.objects {
        GrownHolds(s, s', s.coord.coord.objects[id].owner, id);
        if step.SendAck? && step.task.id == id {
          GrownHolds(s, s', step.task.newOwner, id);
        }
      } else {
        CreatedHolds(t, s, step);
      }
    }
  }

  lemma StepTask(t: Setting, s: Net, step: Step)
    requires TasksOk(t, s) && Possible(t, s, step) && (step.SendAck? || step.SendCreate?)
    ensures TaskOk(t, s, step.task) && (step.SendAck? ==> step.task.Pushed?)
    ensures (step.SendCreate? ==> step.task.Unowned?)
  {
    hide TaskOk, R.EventOk;
  }

  lemma TruthKeys(t: Setting, s: Net, step: Step, k: nat)
    requires SettingOk(t) && NetOk(t, s, k) && k < U64_MAX && Possible(t, s, step)
    ensures Next(t, s, step).truth.Keys == Next(t, s, step).coord.coord.objects.Keys
  {
    hide R.WorldOk, R.EventOk, R.Next, NewStores, NewTasks, StoresOk, NodesResolve, SettingOk, CoordinatorEvent;
    hide Harmless, HoldsTruth;
    OwnersAfter(t, s, step, k);
    if step.SendCreate? {
      StepTask(t, s, step);
    }
  }

  lemma CreatedHolds(t: Setting, s: Net, step: Step)
    requires step.SendCreate? && Possible(t, s, step) && step.task.Unowned? && TaskOk(t, s, step.task)
    requires t.name(step.task.address) !in s.coord.coord.objects
    ensures HoldsTruth(Next(t, s, step), step.task.node, t.name(step.task.address))
  {
    hide R.EventOk, R.Next, CoordinatorEvent, NewTasks;
  }

  // ---- The activities ----------------------------------------------------------------------

  /** Every activity a step starts or carries on is justified. */
  lemma NewTasksOk(t: Setting, s: Net, step: Step, k: nat)
    requires SettingOk(t) && NetOk(t, s, k) && Possible(t, s, step) && MigratesSafely(s, step)
    ensures forall x :: x in NewTasks(t, s, step) ==> TaskOk(t, Next(t, s, step), x)
  {
    hide R.WorldOk, R.EventOk, R.Next, NewStores, SettingOk, Harmless, Same, StoresOk, CoordinatorEvent, Reply, Grows;
    var s' := Next(t, s, step);
    StoreGrows(t, s, step);
    GrownTasks(t, s, s');
    match step
    case ClientStore(_, _, _) =>
      PlacedOk(t, s, step, k);
    case PushCopy(k0, _) =>
      PushedOk(t, s, step, k);
    case PeerLookup(n, a, key, _, _) =>
      LookupTellsOwner(t, s, step, k);
    case FetchReplica(_, _) =>
      FetchedOk(t, s, step, k);
    case AskMigrate(n, id, newOwner, _, _) =>
      GrownSafe(s, s', n, newOwner, id);
    case SendMigrate(k0, _, _) =>
      InstructionEchoes(t, s, step);
      assert TaskOk(t, s', k0);
    case LoadCopy(k0, _) =>
      LoadedOk(t, s, step, k);
    case AskOwner(k0, _, _, _) =>
      assert TaskOk(t, s', k0);
    case _ =>
  }

  lemma InstructionEchoes(t: Setting, s: Net, step: Step)
    requires step.SendMigrate? && step.task.Requested?
    ensures forall x :: x in NewTasks(t, s, step) ==>
      x.Instructed? && x.node == step.task.node && x.id == step.task.id && x.newOwner == step.task.newOwner
        && x.addr == step.task.addr
  {
  }

  lemma LookupTellsOwner(t: Setting, s: Net, step: Step, k: nat)
    requires NetOk(t, s, k) && Possible(t, s, step) && step.PeerLookup?
    ensures forall x :: x in NewTasks(t, s, step) ==> TaskOk(t, Next(t, s, step), x)
  {
    hide R.WorldOk, R.EventOk, R.Next, NewStores, Same, StoresOk, TasksOk, Encode;
    StoreGrows(t, s, step);
    var s', id, objects := Next(t, s, step), t.name(step.address), s.coord.coord.objects;
    assert Address(step.address.namespace, step.address.key, step.address.generation) == step.address;
    if id in objects {
      GrownHolds(s, s', objects[id].owner, id);
    }
  }

  lemma FetchedOk(t: Setting, s: Net, step: Step, k: nat)
    requires SettingOk(t) && NetOk(t, s, k) && Possible(t, s, step) && step.FetchReplica?
    ensures forall x :: x in NewTasks(t, s, step) ==> TaskOk(t, Next(t, s, step), x)
  {
    hide R.WorldOk, R.EventOk, R.Next, NewStores, R.NamesAreTexts, OwnersHoldTruth;
    assert TaskOk(t, s, step.task);
    var id := t.name(step.task.address);
    assert CopyOk(t, id, StoreOf(s, t.resolve(step.task.addr))[id]);
  }

  lemma LoadedOk(t: Setting, s: Net, step: Step, k: nat)
    requires NetOk(t, s, k) && Possible(t, s, step) && step.LoadCopy?
    ensures forall x :: x in NewTasks(t, s, step) ==> TaskOk(t, Next(t, s, step), x)
  {
    hide R.WorldOk, R.EventOk, R.Next, OwnersHoldTruth, Same, StoreLocally, SafeToMigrate, SafeCopy;
    assert TaskOk(t, s, step.task);
    var id, n := step.task.id, step.task.node;
    if id in StoreOf(s, n) {
      assert CopyOk(t, id, StoreOf(s, n)[id]);
      LoadedSafe(s, Next(t, s, step), n, step.task.newOwner, id);
    }
  }

  lemma LoadedSafe(s: Net, s': Net, n: Bytes, newOwner: Bytes, id: Bytes)
    requires SafeToMigrate(s, n, newOwner, id) && id in StoreOf(s, n) && s'.stores == s.stores && s'.truth == s.truth
    ensures SafeCopy(s', StoreOf(s, n)[id], newOwner, id)
  {
  }

  lemma AcceptedCopyIsTruth(s: Net, s': Net, copy: Copy, newOwner: Bytes, id: Bytes)
    requires SafeCopy(s, copy, newOwner, id) && Grows(s, s')
    requires id in StoreOf(s', newOwner) && Same(StoreOf(s', newOwner)[id], copy)
    ensures HoldsTruth(s', newOwner, id)
  {
  }

  /** A push that is accepted leaves the new owner with the authoritative copy. */
  lemma PushedOk(t: Setting, s: Net, step: Step, k: nat)
    requires SettingOk(t) && NetOk(t, s, k) && Possible(t, s, step) && step.PushCopy?
    ensures forall x :: x in NewTasks(t, s, step) ==> TaskOk(t, Next(t, s, step), x)
  {
    hide R.WorldOk, R.EventOk, R.Next, NewStores, SettingOk, StoreLocally, Same, SafeCopy, Grows, HoldsTruth, Reply;
    hide CoordinatorEvent;
    assert TaskOk(t, s, step.task);
    PlacedOk(t, s, step, k);
    StoreGrows(t, s, step);
    if StoreLocally(t, StoreOf(s, step.task.newOwner), step.task.copy, step.luck).1 {
      AcceptedCopyIsTruth(s, Next(t, s, step), step.task.copy, step.task.newOwner, step.task.id);
    }
  }

  // ---- Steps and runs ----------------------------------------------------------------------

  lemma NextKeeps(t: Setting, s: Net, step: Step, k: nat)
    requires SettingOk(t) && NetOk(t, s, k) && k < U64_MAX && Possible(t, s, step) && MigratesSafely(s, step)
    ensures NetOk(t, Next(t, s, step), k + 1) && Grows(s, Next(t, s, step))
  {
    hide R.EventOk, R.Next, NewStores, NewTasks, NewTruth, CoordinatorEvent, TaskOk, R.Tidy, R.FileOk;
    var s' := Next(t, s, step);
    StoreGrows(t, s, step);
    GrownTasks(t, s, s');
    NewTasksOk(t, s, step, k);
    PlacedOk(t, s, step, k);
    OwnersAfter(t, s, step, k);
    TruthKept(t, s, step, k);
    CoordKept(t, s, step, k);
    assert forall x :: x in s'.tasks ==> x in s.tasks || x in NewTasks(t, s, step);
  }

  lemma CoordKept(t: Setting, s: Net, step: Step, k: nat)
    requires SettingOk(t) && R.WorldOk(s.coord, k) && k < U64_MAX && Possible(t, s, step)
    ensures R.WorldOk(Next(t, s, step).coord, k + 1)
  {
    hide R.EventOk, R.Next, NewStores, NewTasks, NewTruth, CoordinatorEvent, R.FileOk, R.PendingOk, R.TextsOk;
    var ev := CoordinatorEvent(step);
    if ev.Some? {
      R.NextKeeps(t.name, s.coord, ev.value, k);
    }
  }

  ghost predicate RunOk(t: Setting, s: Net, steps: seq<Step>)
    decreases |steps|
  {
    steps == [] || (Possible(t, s, steps[0]) && MigratesSafely(s, steps[0])
      && RunOk(t, Next(t, s, steps[0]), steps[1..]))
  }

  ghost function After(t: Setting, s: Net, steps: seq<Step>): Net
    requires RunOk(t, s, steps)
    decreases |steps|
  {
    if steps == [] then s else After(t, Next(t, s, steps[0]), steps[1..])
  }

  lemma GrowsOn(s: Net, s1: Net, s2: Net)
    requires Grows(s, s1) && Grows(s1, s2)
    ensures Grows(s, s2)
  {
  }

  lemma {:induction false} RunKeeps(t: Setting, s: Net, steps: seq<Step>, k: nat)
    requires SettingOk(t) && NetOk(t, s, k) && RunOk(t, s, steps) && k + |steps| <= U64_MAX
    ensures NetOk(t, After(t, s, steps), k + |steps|) && Grows(s, After(t, s, steps))
    decreases |steps|
  {
    hide SettingOk, NetOk, Possible, MigratesSafely, Next, Grows;
    if steps == [] {
      SelfGrows(s);
    } else {
      var s1 := Next(t, s, steps[0]);
      NextKeeps(t, s, steps[0], k);
      RunKeeps(t, s1, steps[1..], k + 1);
      GrowsOn(s, s1, After(t, s, steps));
    }
  }

  lemma SelfGrows(s: Net)
    ensures Grows(s, s)
  {
  }

  ghost predicate Initial(s: Net) {
    && (exists leaseNs, bootId :: s.coord == R.World(New(leaseNs, bootId), None))
    && s.stores == map[] && s.tasks == {} && s.truth == map[]
  }

  lemma InitialOk(t: Setting, s: Net)
    requires Initial(s)
    ensures NetOk(t, s, 0)
  {
    var leaseNs, bootId :| s.coord == R.World(New(leaseNs, bootId), None);
    R.InitialOk(leaseNs, bootId);
  }

  /** The copy held by the current owner of an object. */
  ghost predicate OwnerHas(s: Net, id: Bytes, c: Copy) {
    && id in s.coord.coord.objects
    && var n := s.coord.coord.objects[id].owner; id in StoreOf(s, n) && StoreOf(s, n)[id] == c
  }

  /** A migration is asked of the object's current owner. */
  ghost predicate AtOwner(s: Net, step: Step) {
    step.AskMigrate? ==> step.id in s.coord.coord.objects && s.coord.coord.objects[step.id].owner == step.node
  }

  ghost predicate RunAtOwners(t: Setting, s: Net, steps: seq<Step>)
    decreases |steps|
  {
    steps == [] || (Possible(t, s, steps[0]) && AtOwner(s, steps[0])
      && RunAtOwners(t, Next(t, s, steps[0]), steps[1..]))
  }

  /** Asking only current owners is one way to ask only where no harm can be done. */
  lemma {:induction false} OwnersAskedIsSafe(t: Setting, s: Net, steps: seq<Step>, k: nat)
    requires SettingOk(t) && NetOk(t, s, k) && RunAtOwners(t, s, steps) && k + |steps| <= U64_MAX
    ensures RunOk(t, s, steps)
    decreases |steps|
  {
    hide SettingOk, R.WorldOk, StoresOk, NodesResolve, TasksOk, Possible, Next, HoldsTruth;
    if steps != [] {
      assert MigratesSafely(s, steps[0]);
      NextKeeps(t, s, steps[0], k);
      OwnersAskedIsSafe(t, Next(t, s, steps[0]), steps[1..], k + 1);
    }
  }

  /**
   * Authoritative bytes never change. At any two moments of any run in which migrations are asked for only where they
   * can do no harm -- in particular, of the current owner -- the owner at the later moment holds the bytes and
   * the compatibility key that the owner at the earlier moment held -- through any number of stores, replica fetches,
   * overlapping migrations, late acknowledgements and coordinator restarts in between.
   */
  lemma AuthoritativeBytesNeverChange(t: Setting, s0: Net, xs: seq<Step>, ys: seq<Step>, id: Bytes)
    requires SettingOk(t) && Initial(s0) && RunOk(t, s0, xs) && RunOk(t, After(t, s0, xs), ys) && |xs| + |ys| <= U64_MAX
    requires id in After(t, s0, xs).coord.coord.objects
    ensures var s := After(t, s0, xs); var s' := After(t, s, ys);
      exists c, c' :: OwnerHas(s, id, c) && OwnerHas(s', id, c') && Same(c, c')
  {
    hide SettingOk, RunOk, R.WorldOk, StoresOk, NodesResolve, TasksOk, Initial, OwnersHoldTruth, Grows, After, Same;
    InitialOk(t, s0);
    RunKeeps(t, s0, xs, 0);
    RunKeeps(t, After(t, s0, xs), ys, |xs|);
    OwnersAgree(After(t, s0, xs), After(t, After(t, s0, xs), ys), id);
  }

  lemma GrownTruth(s: Net, s': Net)
    requires Grows(s, s')
    ensures forall id :: id in s.truth ==> id in s'.truth && s'.truth[id] == s.truth[id]
  {
  }

  lemma OwnersAgree(s: Net, s': Net, id: Bytes)
    requires OwnersHoldTruth(s) && OwnersHoldTruth(s') && Grows(s, s') && id in s.coord.coord.objects
    ensures exists c, c' :: OwnerHas(s, id, c) && OwnerHas(s', id, c') && Same(c, c')
  {
    hide Grows;
    assert id in s.truth && id in s'.truth && s'.truth[id] == s.truth[id] by { GrownTruth(s, s'); }
    assert id in s'.coord.coord.objects.Keys;
    var n, n' := s.coord.coord.objects[id].owner, s'.coord.coord.objects[id].owner;
    assert HoldsTruth(s, n, id) && HoldsTruth(s', n', id);
    assert OwnerHas(s, id, StoreOf(s, n)[id]) && OwnerHas(s', id, StoreOf(s', n')[id]);
  }
}

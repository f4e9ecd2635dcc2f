/**
 * A run that leaves a durable entry off disk. An object is persisted, evicted and restored to memory; two further
 * registrations let the account fall one byte short of the arena; deleting the younger of the two uses up the account;
 * and deleting the durable object then removes its storage placement and fails to give its memory back.
 */
module CacheLostDurable {
  import opened Prelude
  import opened Accounting
  import opened BlockArena
  import opened Compat
  import opened CacheSpec
  import opened DiskSafety
  import opened CacheInvariant
  import opened CacheOperations
  import opened CacheRuns
  import opened CacheCrashes
  import opened CacheAccounting
  import opened CacheDurability
  import opened CacheDrift
  import opened CacheWitnesses
  import L = CacheLostLayout
  import T = CacheTheorems
  import E = CacheEviction
  import P = Planner

  /** The objects of the run: `kept` of one byte, `first` and `second` of two bytes that share the byte `x`. */
  datatype Case = Case(kept: Address, first: Address, second: Address, small: CompatKey, large: CompatKey,
                       p: byte, x: byte, y: byte, z: byte, now: u64)

  ghost predicate CaseOk(cfg: Config, r: Rules, t: Case) {
    && Serves(cfg, r) && cfg.hasStore && cfg.blockSize == 1 && Admits(cfg, 1) && Admits(cfg, 2)
    && t.p != t.x && t.p != t.y && t.p != t.z && t.x != t.y && t.x != t.z && t.y != t.z
    && cfg.name(t.kept) != cfg.name(t.first) && cfg.name(t.kept) != cfg.name(t.second)
    && cfg.name(t.first) != cfg.name(t.second)
    && CheckPayload(cfg, t.small, [t.p]).Ok? && OpOk(cfg, r, DoRegister(t.kept, t.small, [t.p]), t.now)
    && CheckPayload(cfg, t.large, [t.x, t.y]).Ok? && OpOk(cfg, r, DoRegister(t.first, t.large, [t.x, t.y]), t.now)
    && CheckPayload(cfg, t.large, [t.x, t.z]).Ok? && OpOk(cfg, r, DoRegister(t.second, t.large, [t.x, t.z]), t.now)
  }

  // ---- Vocabulary --------------------------------------------------------------------------

  function Base(cfg: Config, t: Case): Arena {
    With(cfg.content, EMPTY_ARENA, t.p)
  }

  function Full(cfg: Config, t: Case, last: byte): Arena {
    With(cfg.content, With(cfg.content, Base(cfg, t), t.x), last)
  }

  lemma HashesDiffer(cfg: Config, r: Rules, t: Case)
    requires CaseOk(cfg, r, t)
    ensures var h := cfg.content.hash;
      && h([t.p]) != h([t.x]) && h([t.p]) != h([t.y]) && h([t.p]) != h([t.z])
      && h([t.x]) != h([t.y]) && h([t.x]) != h([t.z]) && h([t.y]) != h([t.z])
  {
    hide CheckPayload, Usable, Admits;
    PairKnown(cfg, r, t.first, t.large, t.x, t.y, t.now);
    PairKnown(cfg, r, t.second, t.large, t.x, t.z, t.now);
    ByteKnown(cfg, r, t.kept, t.small, t.p, t.now);
    var p: Bytes, x: Bytes, y: Bytes, z: Bytes := [t.p], [t.x], [t.y], [t.z];
    assert p[0] != x[0] && p[0] != y[0] && p[0] != z[0] && x[0] != y[0] && x[0] != z[0] && y[0] != z[0];
  }

  // ---- The stages --------------------------------------------------------------------------

  ghost predicate Start(r: Rules, w: World) {
    && WorldOk(r, w) && w.s.entries == map[] && w.a == map[] && w.s.arena == EMPTY_ARENA && w.s.host == Budget(3, 0, 0)
    && Free(w.s.storage) >= 1
  }

  /** Only the kept object, with these placements, this mark, and this host memory. */
  ghost predicate KeptOnly(cfg: Config, r: Rules, t: Case, w: World, ps: seq<Placement>, durable: bool, arena: Arena,
                           used: u64) {
    && WorldOk(r, w) && w.s.entries.Keys == {cfg.name(t.kept)} && Has(w.s, cfg.name(t.kept), ps, durable)
    && cfg.name(t.kept) in w.a && w.a[cfg.name(t.kept)] == Object(t.kept, t.small, [t.p], t.now)
    && w.s.arena == arena && w.s.host == Budget(3, used, 0)
  }

  lemma RegisterKept(cfg: Config, r: Rules, t: Case, w: World)
    requires CaseOk(cfg, r, t) && Start(r, w)
    ensures EventOk(cfg, r, w, Run(DoRegister(t.kept, t.small, [t.p]), t.now))
    ensures var w' := Next(cfg, r, w, Run(DoRegister(t.kept, t.small, [t.p]), t.now));
      KeptOnly(cfg, r, t, w', [InHost(One(cfg, t.p))], false, Base(cfg, t), 1) && w'.s.storage == w.s.storage
  {
    hide Serves, StateOk, CheckPayload, Register, Admits, Charged, Added, HostCounted, OpOk;
    OneBlock(cfg, t.small, t.p);
    OneCharged({}, ByteRef(cfg.content, t.p, 0));
    RegisterFresh(cfg, r, w.m, w.s, t.kept, t.small, [t.p], t.now);
    AcquireOne(cfg.content, EMPTY_ARENA, t.p);
    Runs(cfg, r, w, DoRegister(t.kept, t.small, [t.p]), t.now);
  }

  lemma KeptBlocks(cfg: Config, r: Rules, t: Case)
    requires CaseOk(cfg, r, t)
    ensures r.blocks(Object(t.kept, t.small, [t.p], t.now)) == One(cfg, t.p)
  {
    hide Serves, CheckPayload, Usable;
    CheckedObject(cfg, r, t.kept, t.small, [t.p], t.now);
    OneBlock(cfg, t.small, t.p);
  }

  lemma PersistKept(cfg: Config, r: Rules, t: Case, w: World)
    requires CaseOk(cfg, r, t) && KeptOnly(cfg, r, t, w, [InHost(One(cfg, t.p))], false, Base(cfg, t), 1)
    requires Free(w.s.storage) >= 1
    ensures EventOk(cfg, r, w, Run(DoPersist(cfg.name(t.kept)), t.now))
    ensures KeptOnly(cfg, r, t, Next(cfg, r, w, Run(DoPersist(cfg.name(t.kept)), t.now)),
      [InHost(One(cfg, t.p)), OnDisk], true, Base(cfg, t), 1)
  {
    hide Serves, StateOk, Persist, CheckPayload, Admits;
    var oid := cfg.name(t.kept);
    KeptBlocks(cfg, r, t);
    EntryBlocksOf(cfg, r, w, oid);
    OneCharged(w.s.diskRefs.Keys, ByteRef(cfg.content, t.p, 0));
    HostOnlyPersisted(cfg, r, w.a, w.m, w.s, oid, One(cfg, t.p));
    Runs(cfg, r, w, DoPersist(oid), t.now);
  }

  lemma EvictKept(cfg: Config, r: Rules, t: Case, w: World)
    requires CaseOk(cfg, r, t) && KeptOnly(cfg, r, t, w, [InHost(One(cfg, t.p)), OnDisk], true, Base(cfg, t), 1)
    ensures EventOk(cfg, r, w, Run(DoEvict(cfg.name(t.kept)), t.now))
    ensures KeptOnly(cfg, r, t, Next(cfg, r, w, Run(DoEvict(cfg.name(t.kept)), t.now)), [OnDisk], true, EMPTY_ARENA, 0)
  {
    hide Serves, StateOk, Evict, CheckPayload, Admits, ReleaseAll, With;
    ReleaseOne(cfg.content, EMPTY_ARENA, w.s.host, t.p, 0);
    HostCopyEvicted(cfg, w.s, cfg.name(t.kept), One(cfg, t.p));
    Runs(cfg, r, w, DoEvict(cfg.name(t.kept)), t.now);
  }

  lemma RestoreKept(cfg: Config, r: Rules, t: Case, w: World)
    requires CaseOk(cfg, r, t) && KeptOnly(cfg, r, t, w, [OnDisk], true, EMPTY_ARENA, 0)
    ensures EventOk(cfg, r, w, Run(DoRestore(cfg.name(t.kept), P.Host), t.now))
    ensures KeptOnly(cfg, r, t, Next(cfg, r, w, Run(DoRestore(cfg.name(t.kept), P.Host), t.now)),
      [OnDisk, InHost(One(cfg, t.p))], true, Base(cfg, t), 1)
  {
    hide Serves, StateOk, Restore, CheckPayload, Admits, Charged, AcquireAll, With;
    var oid := cfg.name(t.kept);
    KeptBlocks(cfg, r, t);
    OneCharged({}, ByteRef(cfg.content, t.p, 0));
    AcquireOne(cfg.content, EMPTY_ARENA, t.p);
    assert w.s.arena.blocks.Keys == {};
    DiskOnlyRestored(cfg, r, w.a, w.m, w.s, oid, [t.p], One(cfg, t.p), t.now);
    Runs(cfg, r, w, DoRestore(oid, P.Host), t.now);
  }

  ghost predicate WithFirst(cfg: Config, r: Rules, t: Case, w: World) {
    && WorldOk(r, w) && w.s.entries.Keys == {cfg.name(t.kept), cfg.name(t.first)}
    && Has(w.s, cfg.name(t.kept), [OnDisk, InHost(One(cfg, t.p))], true)
    && Has(w.s, cfg.name(t.first), [InHost(Two(cfg, t.x, t.y))], false)
    && w.s.arena == Full(cfg, t, t.y) && w.s.host == Budget(3, 3, 0)
  }

  lemma RegisterFirst(cfg: Config, r: Rules, t: Case, w: World)
    requires CaseOk(cfg, r, t) && KeptOnly(cfg, r, t, w, [OnDisk, InHost(One(cfg, t.p))], true, Base(cfg, t), 1)
    ensures EventOk(cfg, r, w, Run(DoRegister(t.first, t.large, [t.x, t.y]), t.now))
    ensures WithFirst(cfg, r, t, Next(cfg, r, w, Run(DoRegister(t.first, t.large, [t.x, t.y]), t.now)))
  {
    hide Serves, StateOk, CheckPayload, Register, Admits, Charged, AcquireAll, OpOk, EvictToFree;
    HashesDiffer(cfg, r, t);
    TwoBlocks(cfg, t.large, t.x, t.y);
    var bs := Two(cfg, t.x, t.y);
    TwoCharged(w.s.arena.blocks.Keys, bs[0], bs[1]);
    assert ChargeFor(cfg, w.s, t.large, [t.x, t.y]) == 2 && WithRoom(cfg, w.s, 2, t.now) == w.s;
    RegistrationSucceeds(cfg, r, w.a, w.m, w.s, t.first, t.large, [t.x, t.y], t.now);
    RegistrationStoresAfterRoom(cfg, r, w.a, w.m, w.s, t.first, t.large, [t.x, t.y], t.now);
    AcquireTwo(cfg.content, Base(cfg, t), t.x, t.y);
    Runs(cfg, r, w, DoRegister(t.first, t.large, [t.x, t.y]), t.now);
  }

  /** The kept object is durable, so making room evicts the first object, and that is enough. */
  lemma FirstMakesRoom(cfg: Config, r: Rules, t: Case, w: World)
    requires CaseOk(cfg, r, t) && WithFirst(cfg, r, t, w)
    ensures var s' := WithRoom(cfg, w.s, 1, t.now);
      && s'.entries == WithPlacements(w.s.entries, cfg.name(t.first), []) && s'.arena == Base(cfg, t)
      && s'.host == Budget(3, 1, 0)
  {
    hide Serves, StateOk, CheckPayload, Admits, ReleaseAll, With, EvictOne, EvictionList, WorldOk;
    var s, oid := w.s, cfg.name(t.first);
    HashesDiffer(cfg, r, t);
    var order := EvictionList(cfg, t.now, s);
    E.EvictionListMembers(cfg, t.now, s, oid);
    assert Evicts(s.entries[oid]) by { assert IndexOf([InHost(Two(cfg, t.x, t.y))], P.Host) == 0; }
    E.EvictionListMembers(cfg, t.now, s, order[0]);
    assert order[0] in order && order[0] in s.entries.Keys && order[0] == oid;
    HostOnlyEvicted(cfg, s, oid, Two(cfg, t.x, t.y));
    BaseKeys(cfg, t);
    ReleaseTwo(cfg.content, Base(cfg, t), s.host, t.x, t.y);
    var s1 := EvictOne(cfg, s, oid);
    assert CacheSpec.Reached(FreeAtLeast(1), s1) && !CacheSpec.Reached(FreeAtLeast(1), s);
    assert EvictInOrder(cfg, s, order, FreeAtLeast(1)) == EvictInOrder(cfg, s1, order[1..], FreeAtLeast(1)) == s1;
  }

  lemma BaseKeys(cfg: Config, t: Case)
    ensures Base(cfg, t).blocks.Keys == {cfg.content.hash([t.p])} == Base(cfg, t).refs.Keys
  {
  }

  ghost predicate WithSecond(cfg: Config, r: Rules, t: Case, w: World) {
    && WorldOk(r, w) && w.s.entries.Keys == {cfg.name(t.kept), cfg.name(t.first), cfg.name(t.second)}
    && Has(w.s, cfg.name(t.kept), [OnDisk, InHost(One(cfg, t.p))], true) && Has(w.s, cfg.name(t.first), [], false)
    && Has(w.s, cfg.name(t.second), [InHost(Two(cfg, t.x, t.z))], false)
    && w.s.arena == Full(cfg, t, t.z) && w.s.host == Budget(3, 2, 0)
  }

  lemma RegisterSecond(cfg: Config, r: Rules, t: Case, w: World)
    requires CaseOk(cfg, r, t) && WithFirst(cfg, r, t, w)
    ensures EventOk(cfg, r, w, Run(DoRegister(t.second, t.large, [t.x, t.z]), t.now))
    ensures WithSecond(cfg, r, t, Next(cfg, r, w, Run(DoRegister(t.second, t.large, [t.x, t.z]), t.now)))
  {
    hide Serves, StateOk, CheckPayload, Register, Admits, Charged, AcquireAll, OpOk, WithRoom;
    HashesDiffer(cfg, r, t);
    TwoBlocks(cfg, t.large, t.x, t.z);
    var bs := Two(cfg, t.x, t.z);
    TwoCharged(w.s.arena.blocks.Keys, bs[0], bs[1]);
    assert ChargeFor(cfg, w.s, t.large, [t.x, t.z]) == 1;
    FirstMakesRoom(cfg, r, t, w);
    RegistrationSucceeds(cfg, r, w.a, w.m, w.s, t.second, t.large, [t.x, t.z], t.now);
    RegistrationStoresAfterRoom(cfg, r, w.a, w.m, w.s, t.second, t.large, [t.x, t.z], t.now);
    AcquireTwo(cfg.content, Base(cfg, t), t.x, t.z);
    Runs(cfg, r, w, DoRegister(t.second, t.large, [t.x, t.z]), t.now);
  }

  /** The account is used up although the kept object's byte is still in memory. */
  ghost predicate Exhausted(cfg: Config, r: Rules, t: Case, w: World) {
    && WorldOk(r, w) && w.s.entries.Keys == {cfg.name(t.kept), cfg.name(t.first)}
    && Has(w.s, cfg.name(t.kept), [OnDisk, InHost(One(cfg, t.p))], true) && Has(w.s, cfg.name(t.first), [], false)
    && w.s.arena == Base(cfg, t) && w.s.host == Budget(3, 0, 0)
  }

  lemma DeleteSecond(cfg: Config, r: Rules, t: Case, w: World)
    requires CaseOk(cfg, r, t) && WithSecond(cfg, r, t, w)
    ensures EventOk(cfg, r, w, Run(DoDelete(cfg.name(t.second)), t.now))
    ensures Exhausted(cfg, r, t, Next(cfg, r, w, Run(DoDelete(cfg.name(t.second)), t.now)))
  {
    hide Serves, StateOk, CheckPayload, Admits, Delete, ReleaseAll, With;
    HashesDiffer(cfg, r, t);
    BaseKeys(cfg, t);
    ReleaseTwo(cfg.content, Base(cfg, t), w.s.host, t.x, t.z);
    HostOnlyDeleted(cfg, w.s, cfg.name(t.second), Two(cfg, t.x, t.z));
    Runs(cfg, r, w, DoDelete(cfg.name(t.second)), t.now);
  }

  lemma DeleteKept(cfg: Config, r: Rules, t: Case, w: World)
    requires CaseOk(cfg, r, t) && Exhausted(cfg, r, t, w)
    ensures EventOk(cfg, r, w, Run(DoDelete(cfg.name(t.kept)), t.now))
    ensures DurableOnDisk(w.s.entries) && BreaksDurability(w.s, DoDelete(cfg.name(t.kept)))
    ensures !DurableOnDisk(Next(cfg, r, w, Run(DoDelete(cfg.name(t.kept)), t.now)).s.entries)
  {
    hide Serves, StateOk, CheckPayload, Admits, Delete, ReleaseAll, With;
    var oid := cfg.name(t.kept);
    var ps := w.s.entries[oid].placements;
    ReleaseOne(cfg.content, EMPTY_ARENA, w.s.host, t.p, 0);
    assert Stuck(w.s, ps, 1) && ps[0] == OnDisk;
    assert LosesDurable(w.s, oid);
    DeleteKeepsDurableIff(cfg, r, w.a, w.m, w.s, oid);
    Runs(cfg, r, w, DoDelete(oid), t.now);
  }

  // ---- The whole run -----------------------------------------------------------------------

  lemma LostDurableRun(cfg: Config, r: Rules, t: Case, w0: World) returns (evs: seq<Event>)
    requires CaseOk(cfg, r, t) && Start(r, w0)
    ensures RunOk(cfg, r, w0, evs) && !DurableOnDisk(After(cfg, r, w0, evs).s.entries)
  {
    hide CaseOk, Next, EventOk, DurableOnDisk, BreaksDurability, WithFirst, WithSecond, Exhausted, KeptOnly;
    var e1 := Run(DoRegister(t.kept, t.small, [t.p]), t.now);
    RegisterKept(cfg, r, t, w0);
    RunSnoc(cfg, r, w0, [], e1);
    var w1 := Next(cfg, r, w0, e1);
    var e2 := Run(DoPersist(cfg.name(t.kept)), t.now);
    PersistKept(cfg, r, t, w1);
    RunSnoc(cfg, r, w0, [] + [e1], e2);
    var w2 := Next(cfg, r, w1, e2);
    var e3 := Run(DoEvict(cfg.name(t.kept)), t.now);
    EvictKept(cfg, r, t, w2);
    RunSnoc(cfg, r, w0, [] + [e1] + [e2], e3);
    var w3 := Next(cfg, r, w2, e3);
    var e4 := Run(DoRestore(cfg.name(t.kept), P.Host), t.now);
    RestoreKept(cfg, r, t, w3);
    RunSnoc(cfg, r, w0, [] + [e1] + [e2] + [e3], e4);
    evs := DrainAndDelete(cfg, r, t, w0, [] + [e1] + [e2] + [e3] + [e4]);
  }

  /** The second half of the run. */
  lemma DrainAndDelete(cfg: Config, r: Rules, t: Case, w0: World, done: seq<Event>) returns (evs: seq<Event>)
    requires CaseOk(cfg, r, t) && RunOk(cfg, r, w0, done)
    requires KeptOnly(cfg, r, t, After(cfg, r, w0, done), [OnDisk, InHost(One(cfg, t.p))], true, Base(cfg, t), 1)
    ensures RunOk(cfg, r, w0, evs) && !DurableOnDisk(After(cfg, r, w0, evs).s.entries)
  {
    hide CaseOk, Next, EventOk, DurableOnDisk, BreaksDurability, WithFirst, WithSecond, Exhausted, KeptOnly, RunOk;
    hide After;
    var w4 := After(cfg, r, w0, done);
    var e5 := Run(DoRegister(t.first, t.large, [t.x, t.y]), t.now);
    RegisterFirst(cfg, r, t, w4);
    RunSnoc(cfg, r, w0, done, e5);
    var w5 := Next(cfg, r, w4, e5);
    var e6 := Run(DoRegister(t.second, t.large, [t.x, t.z]), t.now);
    RegisterSecond(cfg, r, t, w5);
    RunSnoc(cfg, r, w0, done + [e5], e6);
    var w6 := Next(cfg, r, w5, e6);
    var e7 := Run(DoDelete(cfg.name(t.second)), t.now);
    DeleteSecond(cfg, r, t, w6);
    RunSnoc(cfg, r, w0, done + [e5] + [e6], e7);
    var w7 := Next(cfg, r, w6, e7);
    var e8 := Run(DoDelete(cfg.name(t.kept)), t.now);
    DeleteKept(cfg, r, t, w7);
    RunSnoc(cfg, r, w0, done + [e5] + [e6] + [e7], e8);
    evs := done + [e5] + [e6] + [e7] + [e8];
  }

  /** From an empty cache with room for three bytes, eight operations leave a durable entry that is not on disk. */
  lemma DurableOffDiskIsReachable(cfg: Config, known: iset<Bytes>, w0: World, kept: Address, first: Address,
                                  second: Address, p: byte, x: byte, y: byte, z: byte, now: u64)
    returns (evs: seq<Event>)
    requires T.Wired(cfg) && NoCollision(cfg.content, known) && cfg.hasStore && cfg.blockSize == 1
    requires Admits(cfg, 1) && Admits(cfg, 2)
    requires p != x && p != y && p != z && x != y && x != z && y != z
    requires kept != first && kept != second && first != second
    requires T.InputOk(cfg, known, DoRegister(kept, L.Row(1), [p]))
    requires T.InputOk(cfg, known, DoRegister(first, L.Row(2), [x, y]))
    requires T.InputOk(cfg, known, DoRegister(second, L.Row(2), [x, z]))
    requires T.Initial(w0) && w0.s.host.capacity == 3 && Free(w0.s.storage) >= 1
    ensures T.Reachable(cfg, known, w0, evs) && !DurableOnDisk(T.Reached(cfg, known, w0, evs).s.entries)
  {
    hide T.Wired, NoCollision, T.InputOk, Admits, CheckPayload, RunOk, OpOk, Serves, DurableOnDisk;
    var r := T.RulesOf(cfg, known);
    var one, two, three := DoRegister(kept, L.Row(1), [p]), DoRegister(first, L.Row(2), [x, y]),
      DoRegister(second, L.Row(2), [x, z]);
    T.RulesServe(cfg, known);
    T.InputsSuffice(cfg, known, one, now);
    T.InputsSuffice(cfg, known, two, now);
    T.InputsSuffice(cfg, known, three, now);
    L.NamesDiffer(cfg, known, one, two);
    L.NamesDiffer(cfg, known, one, three);
    L.NamesDiffer(cfg, known, two, three);
    L.RowPasses(cfg, [p]);
    L.RowPasses(cfg, [x, y]);
    L.RowPasses(cfg, [x, z]);
    L.StartsBlank(r, w0);
    evs := LostDurableRun(cfg, r, Case(kept, first, second, L.Row(1), L.Row(2), p, x, y, z, now), w0);
  }
}

/** The two failures of the host account as runs of a cache opened over an empty directory. */
module CacheMiscounts {
  import opened Prelude
  import opened Compat
  import opened BlockArena
  import opened CacheSpec
  import opened DiskSafety
  import opened CacheInvariant
  import opened CacheRuns
  import opened CacheCrashes
  import opened CacheDrift
  import opened CacheWitnesses
  import L = CacheLostLayout
  import T = CacheTheorems

  lemma StartsEmpty(r: Rules, w: World)
    requires T.Initial(w)
    ensures WorldOk(r, w) && w.a == map[] && w.s.entries == map[] && w.s.arena == EMPTY_ARENA && w.s.host.used == 0
  {
    T.InitialOk(r, w);
  }

  /** Two operations, one after the other. */
  lemma RunTwo(cfg: Config, r: Rules, w: World, first: Op, second: Op, now: u64) returns (evs: seq<Event>)
    requires Serves(cfg, r) && WorldOk(r, w) && OpOk(cfg, r, first, now) && OpOk(cfg, r, second, now)
    ensures RunOk(cfg, r, w, evs)
    ensures After(cfg, r, w, evs).s == Step(cfg, Step(cfg, w.s, first, now).state, second, now).state
  {
    hide Serves, WorldOk, EventOk, Next, Step, OpOk;
    var e1, e2 := Run(first, now), Run(second, now);
    Runs(cfg, r, w, first, now);
    RunSnoc(cfg, r, w, [], e1);
    Runs(cfg, r, Next(cfg, r, w, e1), second, now);
    RunSnoc(cfg, r, w, [] + [e1], e2);
    evs := [] + [e1] + [e2];
  }

  /** An object of two equal bytes is registered and deleted; the empty cache still accounts for one byte. */
  lemma OvercountIsReachable(cfg: Config, known: iset<Bytes>, w0: World, address: Address, x: byte, now: u64)
    returns (evs: seq<Event>)
    requires T.Wired(cfg) && NoCollision(cfg.content, known) && cfg.blockSize == 1 && Admits(cfg, 2)
    requires T.InputOk(cfg, known, DoRegister(address, L.Row(2), [x, x]))
    requires T.Initial(w0) && w0.s.host.capacity >= 2
    ensures T.Reachable(cfg, known, w0, evs)
    ensures var s := T.Reached(cfg, known, w0, evs).s; s.entries == map[] && s.arena.bytes == 0 && s.host.used == 1
  {
    hide T.Wired, NoCollision, T.InputOk, Admits, CheckPayload, RunOk, OpOk, Serves, StateOk, Register, Delete;
    hide T.Initial, After;
    var r, k := T.RulesOf(cfg, known), L.Row(2);
    T.RulesServe(cfg, known);
    T.InputsSuffice(cfg, known, DoRegister(address, k, [x, x]), now);
    NotARegistration(cfg, known, cfg.name(address));
    T.InputsSuffice(cfg, known, DoDelete(cfg.name(address)), now);
    L.RowPasses(cfg, [x, x]);
    StartsEmpty(r, w0);
    RepeatedBlockIsOvercounted(cfg, r, w0.m, w0.s, address, k, x, now);
    evs := RunTwo(cfg, r, w0, DoRegister(address, k, [x, x]), DoDelete(cfg.name(address)), now);
  }

  lemma NotARegistration(cfg: Config, known: iset<Bytes>, oid: Digest)
    ensures T.InputOk(cfg, known, DoDelete(oid))
  {
  }

  /** With room for two bytes, two objects that share a block are registered; two stored bytes are accounted as one. */
  lemma UndercountIsReachable(cfg: Config, known: iset<Bytes>, w0: World, first: Address, second: Address, x: byte,
                              y: byte, z: byte, now: u64)
    returns (evs: seq<Event>)
    requires T.Wired(cfg) && NoCollision(cfg.content, known) && cfg.blockSize == 1 && Admits(cfg, 2)
    requires first != second && x != y && x != z && y != z
    requires T.InputOk(cfg, known, DoRegister(first, L.Row(2), [x, y]))
    requires T.InputOk(cfg, known, DoRegister(second, L.Row(2), [x, z]))
    requires T.Initial(w0) && w0.s.host.capacity == 2
    ensures T.Reachable(cfg, known, w0, evs)
    ensures var s := T.Reached(cfg, known, w0, evs).s; s.arena.bytes == 2 && s.host.used == 1
  {
    hide T.Wired, NoCollision, T.InputOk, Admits, CheckPayload, RunOk, OpOk, Serves, StateOk, Register, T.Initial;
    hide After;
    var r, k := T.RulesOf(cfg, known), L.Row(2);
    var one, two := DoRegister(first, k, [x, y]), DoRegister(second, k, [x, z]);
    T.RulesServe(cfg, known);
    T.InputsSuffice(cfg, known, one, now);
    T.InputsSuffice(cfg, known, two, now);
    L.NamesDiffer(cfg, known, one, two);
    L.RowPasses(cfg, [x, y]);
    L.RowPasses(cfg, [x, z]);
    StartsEmpty(r, w0);
    LostBlockIsUndercounted(cfg, r, w0.m, w0.s, first, second, k, x, y, z, now);
    evs := RunTwo(cfg, r, w0, one, two, now);
  }
}

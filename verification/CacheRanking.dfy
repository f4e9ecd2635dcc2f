/** Which objects make room for a new one: those worth least, in the terms of their own entries. */
module CacheRanking {
  import opened Prelude
  import opened Compat
  import opened CacheSpec
  import opened DiskSafety
  import opened CacheInvariant
  import opened CacheRuns
  import opened CacheAccounting
  import opened CacheEviction
  import Ev = Eviction
  import P = Planner

  // ---- What an entry is worth --------------------------------------------------------------

  /** Whole seconds since the last use; none if the clock has gone back. */
  function IdleSeconds(e: Entry, now: u64): nat {
    if now <= e.lastUseNs then 0 else (now - e.lastUseNs) / 1_000_000_000
  }

  /** What computing the object again would cost. */
  function RecomputeNs(c: P.CostModel, e: Entry): nat {
    c.recomputeBaseNs + e.byteLen * c.recomputeNsPerByte
  }

  function Merit(cfg: Config, e: Entry): nat {
    Ev.Product(e.reuseCount, cfg.policy.reuse) + Ev.Product(RecomputeNs(cfg.cost, e), cfg.policy.reconstruct)
  }

  function Burden(cfg: Config, e: Entry, now: u64): nat {
    Ev.Product(IdleSeconds(e, now), cfg.policy.age) + Ev.Product(e.byteLen / 1024, cfg.policy.size)
  }

  /** Uses and recomputation speak for keeping the object, idleness and size against it. */
  function Worth(cfg: Config, e: Entry, now: u64): int {
    Merit(cfg, e) - Burden(cfg, e, now)
  }

  /** No number is so large that the machine's arithmetic would cut or wrap it. */
  ghost predicate Moderate(cfg: Config, e: Entry, now: u64) {
    && e.reuseCount < TWO_63 && RecomputeNs(cfg.cost, e) < TWO_63 && IdleSeconds(e, now) < TWO_63 && e.byteLen < TWO_63
    && cfg.policy.reuse < TWO_63 && cfg.policy.reconstruct < TWO_63 && cfg.policy.age < TWO_63
    && cfg.policy.size < TWO_63 && cfg.policy.durableBonus < TWO_63 && cfg.policy.priority < TWO_63
    && Merit(cfg, e) + cfg.policy.durableBonus < TWO_63 && Burden(cfg, e, now) < TWO_63
  }

  /** Leaves memory no later than: worth less, or as much and with the smaller identity. */
  ghost predicate GoesFirst(cfg: Config, now: u64, x: Digest, ex: Entry, y: Digest, ey: Entry) {
    || Worth(cfg, ex, now) < Worth(cfg, ey, now)
    || (Worth(cfg, ex, now) == Worth(cfg, ey, now) && Ev.LexLeq(x, y))
  }

  lemma ScoreIsWorth(cfg: Config, now: u64, oid: Digest, e: Entry)
    requires !e.durable && Moderate(cfg, e, now)
    ensures ScoreBy(cfg)(Candidate(cfg, now, oid, e)) == Worth(cfg, e, now)
  {
    hide Ev.KeepScore, Ev.Product;
    var c := Candidate(cfg, now, oid, e);
    P.ReconstructIsPriced(cfg.cost, e.byteLen);
    assert c.reconstructNs == RecomputeNs(cfg.cost, e) && c.ageSeconds == IdleSeconds(e, now);
    NoPriority(cfg.policy.priority);
    Ev.KeepScoreIsWeightedSum(cfg.policy, c);
  }

  lemma NoPriority(w: u64)
    ensures Ev.Product(0, w) == 0
  {
  }

  // ---- The order of the list ---------------------------------------------------------------

  lemma {:induction false} IdsIndex(order: seq<Ev.Evictable>)
    requires forall i :: 0 <= i < |order| ==> |order[i].id| == 32
    ensures |Ids(order)| == |order| && forall i :: 0 <= i < |order| ==> Ids(order)[i] == order[i].id
  {
    if order != [] {
      IdsIndex(order[1..]);
    }
  }

  lemma ListedCandidate(cfg: Config, now: u64, s: State, i: nat)
    requires var order := Ev.OrderOf(ScoreBy(cfg), Candidates(cfg, now, s.entries)); i < |order|
    ensures var c := Ev.OrderOf(ScoreBy(cfg), Candidates(cfg, now, s.entries))[i];
      |c.id| == 32 && c.id in s.entries && c == Candidate(cfg, now, c.id, s.entries[c.id])
  {
    hide Evicts, Candidate;
    var cands := Candidates(cfg, now, s.entries);
    var order := Ev.OrderOf(ScoreBy(cfg), cands);
    assert order[i] in order;
    OrderMembers(ScoreBy(cfg), cands, order[i]);
    var o :| o in s.entries && Evicts(s.entries[o]) && order[i] == Candidate(cfg, now, o, s.entries[o]);
    CandidateId(cfg, now, o, s.entries[o]);
  }

  /** What is listed earlier goes first. */
  lemma ListedByWorth(cfg: Config, now: u64, s: State, i: nat, j: nat)
    requires var order := EvictionList(cfg, now, s); i < j < |order| && order[i] in s.entries && order[j] in s.entries
    requires var order := EvictionList(cfg, now, s); var x, y := order[i], order[j];
      && !s.entries[x].durable && !s.entries[y].durable
      && Moderate(cfg, s.entries[x], now) && Moderate(cfg, s.entries[y], now)
    ensures var order := EvictionList(cfg, now, s); var x, y := order[i], order[j];
      GoesFirst(cfg, now, x, s.entries[x], y, s.entries[y])
  {
    hide Moderate, Worth, Candidate, Candidates;
    var cands := Candidates(cfg, now, s.entries);
    var order := Ev.OrderOf(ScoreBy(cfg), cands);
    forall n | 0 <= n < |order|
      ensures |order[n].id| == 32
    {
      ListedCandidate(cfg, now, s, n);
    }
    IdsIndex(order);
    ListedCandidate(cfg, now, s, i);
    ListedCandidate(cfg, now, s, j);
    Ev.OrderIsSorted(ScoreBy(cfg), Ev.Enumerate(cands));
    ScoreIsWorth(cfg, now, order[i].id, s.entries[order[i].id]);
    ScoreIsWorth(cfg, now, order[j].id, s.entries[order[j].id]);
  }

  // ---- Making room -------------------------------------------------------------------------

  /** Of two objects that could make room, the one that did is worth no more than the one that did not. */
  lemma LeastWorthMakesRoom(cfg: Config, s: State, needed: nat, now: u64, x: Digest, y: Digest)
    requires AllDistinct(s.entries) && x in s.entries && y in s.entries
    requires Evicts(s.entries[x]) && Evicts(s.entries[y])
    requires Moderate(cfg, s.entries[x], now) && Moderate(cfg, s.entries[y], now)
    ensures var after := EvictToFree(cfg, s, needed, now).entries;
      x in after && y in after && (!Evicts(after[x]) && Evicts(after[y]) ==>
        GoesFirst(cfg, now, x, s.entries[x], y, s.entries[y]))
  {
    hide EvictEach, DistinctTiers, EvictInOrder, EvictionList, HasTier, Moderate, GoesFirst, EvictToFree;
    var order := EvictionList(cfg, now, s);
    var after := EvictToFree(cfg, s, needed, now).entries;
    var k := MakingRoom(cfg, s, needed, now);
    forall o | o in order[..k]
      ensures o in s.entries
    {
      assert o in order;
      EvictionListMembers(cfg, now, s, o);
    }
    EvictEachEffect(cfg, s, order[..k], x);
    EvictEachEffect(cfg, s, order[..k], y);
    EvictionListMembers(cfg, now, s, y);
    if !Evicts(after[x]) && Evicts(after[y]) {
      var i :| 0 <= i < k && order[i] == x;
      var j :| 0 <= j < |order| && order[j] == y;
      ListedByWorth(cfg, now, s, i, j);
    }
  }

  /** The same of the room that a registration makes, over a valid state. */
  lemma RoomTakesLeastWorth(cfg: Config, r: Rules, a: Registry, m: Registry, s: State, charge: nat, now: u64, x: Digest,
                            y: Digest)
    requires StateOk(r, a, m, s)
    requires x in s.entries && y in s.entries && HasTier(s.entries[x], P.Host) && HasTier(s.entries[y], P.Host)
    requires !s.entries[y].durable && Moderate(cfg, s.entries[x], now) && Moderate(cfg, s.entries[y], now)
    ensures var after := WithRoom(cfg, s, charge, now).entries;
      && x in after && y in after
      && (!HasTier(after[x], P.Host) && HasTier(after[y], P.Host) ==>
          !s.entries[x].durable && GoesFirst(cfg, now, x, s.entries[x], y, s.entries[y]))
  {
    hide StateOk, EvictToFree, HasTier, Moderate, GoesFirst, DistinctTiers, EvictEach, EvictionList;
    forall o | o in s.entries
      ensures DistinctTiers(s.entries[o].placements)
    {
      DistinctOf(r, a, m, s, o);
    }
    var n := MakingRoom(cfg, s, charge, now);
    if Evicts(s.entries[x]) {
      LeastWorthMakesRoom(cfg, s, charge, now, x, y);
    }
  }

  /**
   * Registering an object, whether it succeeds or not, takes out of host memory only objects that are not durable, and
   * none that is worth more than one it leaves there.
   */
  lemma RegistrationEvictsLeastWorth(cfg: Config, r: Rules, a: Registry, m: Registry, s: State, address: Address,
                                     k: CompatKey, payload: Bytes, now: u64, x: Digest, y: Digest)
    requires Serves(cfg, r) && StateOk(r, a, m, s) && OpOk(cfg, r, DoRegister(address, k, payload), now)
    requires x in s.entries && y in s.entries && HasTier(s.entries[x], P.Host) && HasTier(s.entries[y], P.Host)
    requires !s.entries[y].durable && Moderate(cfg, s.entries[x], now) && Moderate(cfg, s.entries[y], now)
    ensures var after := Register(cfg, s, address, k, payload, now).state.entries;
      && x in after && y in after
      && (!HasTier(after[x], P.Host) && HasTier(after[y], P.Host) ==>
          !s.entries[x].durable && GoesFirst(cfg, now, x, s.entries[x], y, s.entries[y]))
  {
    hide Serves, StateOk, Register, CheckPayload, WithRoom, HasTier, Moderate, GoesFirst, OpOk;
    RoomTakesLeastWorth(cfg, r, a, m, s, ChargeFor(cfg, s, k, payload), now, x, y);
    if Register(cfg, s, address, k, payload, now).result.Ok? {
      RegistrationStoresAfterRoom(cfg, r, a, m, s, address, k, payload, now);
    } else {
      RegistrationRefused(cfg, r, a, m, s, address, k, payload, now);
    }
  }
}

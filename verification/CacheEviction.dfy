/** What making room removes: the shortest prefix of the eviction order that reaches the goal, and nothing durable. */
module CacheEviction {
  import opened Prelude
  import opened Accounting
  import opened CacheSpec
  import opened CacheInvariant
  import opened CacheOperations
  import Ev = Eviction
  import P = Planner

  // ---- Who is on the list ------------------------------------------------------------------

  lemma {:induction false} IdsMembers(order: seq<Ev.Evictable>, oid: Digest)
    ensures oid in Ids(order) <==> exists e :: e in order && e.id == oid
  {
    if order != [] {
      IdsMembers(order[1..], oid);
      assert forall e :: e in order <==> e == order[0] || e in order[1..];
    }
  }

  lemma OrderMembers(score: Ev.Score, s: set<Ev.Evictable>, e: Ev.Evictable)
    ensures e in Ev.OrderOf(score, s) <==> e in s
  {
    var o := Ev.OrderOf(score, s);
    assert multiset(o) == multiset(s);
    assert e in multiset(o) <==> e in multiset(s);
  }

  /** The list names exactly the entries that are in host memory and not durable. */
  lemma EvictionListMembers(cfg: Config, now: u64, s: State, oid: Digest)
    ensures oid in EvictionList(cfg, now, s) <==> oid in s.entries && Evicts(s.entries[oid])
  {
    hide Evicts, Candidate;
    var cands := Candidates(cfg, now, s.entries);
    var order := Ev.OrderOf(ScoreBy(cfg), cands);
    IdsMembers(order, oid);
    if oid in s.entries && Evicts(s.entries[oid]) {
      var e := Candidate(cfg, now, oid, s.entries[oid]);
      assert e in cands;
      OrderMembers(ScoreBy(cfg), cands, e);
      CandidateId(cfg, now, oid, s.entries[oid]);
    }
    if exists e :: e in order && e.id == oid {
      var e :| e in order && e.id == oid;
      OrderMembers(ScoreBy(cfg), cands, e);
      var o :| o in s.entries && Evicts(s.entries[o]) && e == Candidate(cfg, now, o, s.entries[o]);
      CandidateId(cfg, now, o, s.entries[o]);
    }
  }

  lemma CandidateId(cfg: Config, now: u64, oid: Digest, e: Entry)
    ensures Candidate(cfg, now, oid, e).id == oid
  {
  }

  // ---- Evicting one ------------------------------------------------------------------------

  lemma StrippedVolatile(ps: seq<Placement>)
    requires DistinctTiers(ps)
    ensures forall p :: p in Stripped(ps, Volatile(Tiers(ps))) <==> p in ps && p == OnDisk
  {
    var tiers := Volatile(Tiers(ps));
    forall p
      ensures p in Stripped(ps, tiers) <==> p in ps && p == OnDisk
    {
      StrippedMembers(ps, tiers, p);
      VolatileMembers(Tiers(ps), TierOf(p));
      TiersMembers(ps, TierOf(p));
    }
  }

  ghost predicate AllDistinct(entries: map<Digest, Entry>) {
    forall oid :: oid in entries ==> DistinctTiers(entries[oid].placements)
  }

  /** An eviction touches one entry only and leaves it its storage placement, if any, and nothing else. */
  lemma EvictOneEffect(cfg: Config, s: State, oid: Digest)
    requires oid in s.entries && AllDistinct(s.entries)
    ensures var after := EvictOne(cfg, s, oid).entries;
      && after.Keys == s.entries.Keys && AllDistinct(after)
      && (forall o :: o in s.entries && o != oid ==> after[o] == s.entries[o])
      && after[oid] == s.entries[oid].(placements := after[oid].placements)
      && (forall p :: p in after[oid].placements <==> p in s.entries[oid].placements && p == OnDisk)
      && !Evicts(after[oid])
  {
    hide RemoveTiers, DistinctTiers;
    var ps := s.entries[oid].placements;
    RemoveTiersShape(cfg, s, oid, Volatile(Tiers(ps)), false);
    StrippedVolatile(ps);
    StrippedDistinct(ps, Volatile(Tiers(ps)));
    var left := Stripped(ps, Volatile(Tiers(ps)));
    forall j | 0 <= j < |left|
      ensures TierOf(left[j]) == P.Persistent
    {
      assert left[j] in left;
    }
  }

  lemma {:induction false} StrippedDistinct(ps: seq<Placement>, tiers: seq<Tier>)
    requires DistinctTiers(ps)
    ensures DistinctTiers(Stripped(ps, tiers))
    decreases |tiers|
  {
    if tiers != [] {
      var i := IndexOf(ps, tiers[0]);
      if i < |ps| {
        WithoutDistinct(ps, i);
        StrippedDistinct(Without(ps, i), tiers[1..]);
      } else {
        StrippedDistinct(ps, tiers[1..]);
      }
    }
  }

  // ---- Evicting a prefix -------------------------------------------------------------------

  function EvictEach(cfg: Config, s: State, order: seq<Digest>): State
    decreases |order|
  {
    if order == [] then s else EvictEach(cfg, EvictOne(cfg, s, order[0]), order[1..])
  }

  /** Eviction in order is eviction of a prefix, and the shortest one that reaches the goal. */
  lemma {:induction false} EvictsShortestPrefix(cfg: Config, s: State, order: seq<Digest>, goal: Goal) returns (k: nat)
    ensures k <= |order| && EvictInOrder(cfg, s, order, goal) == EvictEach(cfg, s, order[..k])
    ensures forall j :: 0 <= j < k ==> !CacheSpec.Reached(goal, EvictEach(cfg, s, order[..j]))
    ensures k < |order| ==> CacheSpec.Reached(goal, EvictEach(cfg, s, order[..k]))
    decreases |order|
  {
    hide EvictOne, CacheSpec.Reached;
    if order == [] || CacheSpec.Reached(goal, s) {
      k := 0;
      assert order[..0] == [];
    } else {
      var s1 := EvictOne(cfg, s, order[0]);
      var l := EvictsShortestPrefix(cfg, s1, order[1..], goal);
      k := l + 1;
      assert order[..k][1..] == order[1..][..l] && order[..k][0] == order[0];
      forall j | 0 <= j < k
        ensures !CacheSpec.Reached(goal, EvictEach(cfg, s, order[..j]))
      {
        if j == 0 {
          assert order[..0] == [];
        } else {
          assert order[..j][0] == order[0] && order[..j][1..] == order[1..][..j - 1];
        }
      }
    }
  }

  /** A prefix of evictions empties the listed entries and touches no other. */
  lemma {:induction false} EvictEachEffect(cfg: Config, s: State, order: seq<Digest>, oid: Digest)
    requires AllDistinct(s.entries) && (forall o :: o in order ==> o in s.entries) && oid in s.entries
    ensures var after := EvictEach(cfg, s, order).entries;
      && oid in after
      && (oid !in order ==> after[oid] == s.entries[oid])
      && (oid in order ==> !Evicts(after[oid]))
      && (!Evicts(s.entries[oid]) ==> !Evicts(after[oid]))
      && (OnDisk in after[oid].placements <==> OnDisk in s.entries[oid].placements)
      && after[oid].durable == s.entries[oid].durable
    decreases |order|
  {
    hide EvictOne, Evicts, DistinctTiers;
    if order != [] {
      var s1 := EvictOne(cfg, s, order[0]);
      assert order[0] in order && forall o :: o in order <==> o == order[0] || o in order[1..];
      EvictOneEffect(cfg, s, order[0]);
      EvictEachEffect(cfg, s1, order[1..], oid);
    }
  }

  /**
   * Making room: the shortest prefix of the eviction order is evicted; on return either there is room or nothing
   * evictable is left in host memory; durable entries and storage placements are untouched.
   */
  lemma MakingRoom(cfg: Config, s: State, needed: nat, now: u64) returns (k: nat)
    requires AllDistinct(s.entries)
    ensures var order := EvictionList(cfg, now, s); var s' := EvictToFree(cfg, s, needed, now);
      && k <= |order| && s' == EvictEach(cfg, s, order[..k])
      && (forall j :: 0 <= j < k ==> Free(EvictEach(cfg, s, order[..j]).host) < needed)
      && (Free(s'.host) >= needed || forall oid :: oid in s'.entries && oid in s.entries ==> !Evicts(s'.entries[oid]))
      && forall oid :: oid in s.entries ==>
           && oid in s'.entries
           && (s.entries[oid].durable ==> s'.entries[oid] == s.entries[oid])
           && s'.entries[oid].durable == s.entries[oid].durable
           && (OnDisk in s'.entries[oid].placements <==> OnDisk in s.entries[oid].placements)
  {
    hide EvictEach, DistinctTiers, EvictInOrder, EvictionList, HasTier;
    var order := EvictionList(cfg, now, s);
    var s' := EvictToFree(cfg, s, needed, now);
    k := EvictsShortestPrefix(cfg, s, order, FreeAtLeast(needed));
    forall o | o in order
      ensures o in s.entries && Evicts(s.entries[o])
    {
      EvictionListMembers(cfg, now, s, o);
    }
    assert forall o :: o in order[..k] ==> o in order;
    forall oid | oid in s.entries
      ensures oid in s'.entries
      ensures s.entries[oid].durable ==> s'.entries[oid] == s.entries[oid]
      ensures s'.entries[oid].durable == s.entries[oid].durable
      ensures OnDisk in s'.entries[oid].placements <==> OnDisk in s.entries[oid].placements
      ensures k == |order| ==> !Evicts(s'.entries[oid])
    {
      EvictEachEffect(cfg, s, order[..k], oid);
      EvictionListMembers(cfg, now, s, oid);
      assert s.entries[oid].durable ==> oid !in order[..k];
      if k == |order| {
        assert order[..k] == order;
      }
    }
  }
}

/** Exactly when operations that give copies up, and registrations, succeed, and which error they return otherwise. */
module CacheOutcomes {
  import opened Prelude
  import opened Storage
  import opened Accounting
  import opened BlockArena
  import opened Shapes
  import opened Compat
  import opened CacheSpec
  import opened DiskSafety
  import opened CacheInvariant
  import opened CacheKept
  import opened CacheOperations
  import opened CacheRuns
  import opened CacheAccounting
  import opened CacheEffects
  import D = CacheDrift
  import E = CacheEviction
  import X = CacheExactness
  import P = Planner

  // ---- Giving copies up --------------------------------------------------------------------

  /** The host account can take back the memory of the entry. */
  predicate Returns(s: State, e: Entry) {
    ReleaseAll(s.arena, s.host, e.blocks).2
  }

  lemma TakeOutcome(cfg: Config, r: Rules, a: Registry, m: Registry, s: State, oid: Digest, t: Tier)
    requires Serves(cfg, r) && StateOk(r, a, m, s) && oid in s.entries && HasTier(s.entries[oid], t)
    ensures var x := RemovePlacement(cfg, s, oid, t);
      && x.result == (if t == P.Host && !Returns(s, s.entries[oid]) then Err(Error.Accounting) else Ok(()))
      && (t != P.Host ==> x.state.arena == s.arena && x.state.host == s.host)
      && x.state.entries == Taken(s, oid, IndexOf(s.entries[oid].placements, t)).entries
  {
    hide Serves, StateOk, ReleaseAll, DropBlocks, ApplyAll, Usable;
    EntryFacts(cfg, r, a, m, s, oid);
    var i := IndexOf(s.entries[oid].placements, t);
    assert PlacementOk(r.hasStore, s.backends.Keys, a[oid], s.entries[oid].blocks, s.entries[oid].placements[i]);
    RemovePlacementShape(cfg, s, oid, t);
  }

  /** Giving up several copies fails if and only if host memory is among them and the account cannot take it back. */
  lemma {:induction false} StripOutcome(cfg: Config, r: Rules, a: Registry, m: Registry, s: State, oid: Digest,
                                        tiers: seq<Tier>)
    requires Serves(cfg, r) && StateOk(r, a, m, s) && oid in s.entries && AllHeld(s.entries[oid].placements, tiers)
    ensures RemoveTiers(cfg, s, oid, tiers, true).result ==
      if P.Host in tiers && !Returns(s, s.entries[oid]) then Err(Error.Accounting) else Ok(())
    decreases |tiers|
  {
    hide StateOk, Serves, RemovePlacement, ReleaseAll, IndexOf;
    if tiers != [] {
      var y := RemovePlacement(cfg, s, oid, tiers[0]);
      assert HasTier(s.entries[oid], tiers[0]);
      TakeOutcome(cfg, r, a, m, s, oid, tiers[0]);
      KeptRemovePlacement(cfg, r, a, m, s, oid, tiers[0]);
      KeptState(r, a, m, s, y.state, y.ops, if tiers[0] == P.Persistent then {oid} else {});
      StillHeld(s.entries[oid].placements, tiers);
      StripOutcome(cfg, r, a, DescribedAfter(m, a, y.ops), y.state, oid, tiers[1..]);
      assert P.Host in tiers <==> P.Host == tiers[0] || P.Host in tiers[1..];
    }
  }

  lemma HeldTiers(e: Entry, t: Tier)
    ensures t in Tiers(e.placements) <==> HasTier(e, t)
  {
    TiersMembers(e.placements, t);
    HasTierIsMember(e, t);
  }

  /** An eviction fails, once its object is found, if and only if the account cannot take the memory back. */
  lemma EvictOutcome(cfg: Config, r: Rules, a: Registry, m: Registry, s: State, oid: Digest)
    requires Serves(cfg, r) && StateOk(r, a, m, s)
    ensures Evict(cfg, s, oid).result ==
      if oid !in a then Err(NotFound)
      else if HasTier(s.entries[oid], P.Host) && !Returns(s, s.entries[oid]) then Err(Error.Accounting) else Ok(())
  {
    hide Serves, StateOk, RemoveTiers, Returns, HasTier, DistinctTiers, Tiers;
    EntryKeys(r, a, m, s);
    if oid in s.entries {
      var ps := s.entries[oid].placements;
      DistinctOf(r, a, m, s, oid);
      TiersAreHeld(ps);
      HeldTiers(s.entries[oid], P.Host);
      VolatileMembers(Tiers(ps), P.Host);
      StripOutcome(cfg, r, a, m, s, oid, Volatile(Tiers(ps)));
    }
  }

  /** And so does a deletion. */
  lemma DeleteOutcome(cfg: Config, r: Rules, a: Registry, m: Registry, s: State, oid: Digest)
    requires Serves(cfg, r) && StateOk(r, a, m, s)
    ensures Delete(cfg, s, oid).result ==
      if oid !in a then Err(NotFound)
      else if HasTier(s.entries[oid], P.Host) && !Returns(s, s.entries[oid]) then Err(Error.Accounting) else Ok(())
  {
    hide Serves, StateOk, RemoveTiers, Returns, HasTier, DistinctTiers, Tiers, ApplyAll;
    EntryKeys(r, a, m, s);
    if oid in s.entries {
      var ps := s.entries[oid].placements;
      DistinctOf(r, a, m, s, oid);
      TiersAreHeld(ps);
      HeldTiers(s.entries[oid], P.Host);
      StripOutcome(cfg, r, a, m, s, oid, Tiers(ps));
    }
  }

  // ---- Demotion ----------------------------------------------------------------------------

  lemma EnsureSparesHost(cfg: Config, r: Rules, a: Registry, m: Registry, s: State, oid: Digest)
    requires Serves(cfg, r) && StateOk(r, a, m, s)
    ensures var x := Ensure(cfg, s, oid, P.Persistent); x.state.arena == s.arena && x.state.host == s.host
  {
    hide Serves, StateOk, Materialize, AddDisk, HasTier;
    EntryKeys(r, a, m, s);
    if oid in s.entries && Materialize(cfg, s, oid).Ok? {
      X.AddElsewhereShape(cfg, s, oid, P.Persistent, Materialize(cfg, s, oid).value);
    }
  }

  /** After making sure of a copy in another tier, the first copy is still there and the entry has the same blocks. */
  lemma EnsuredStillHeld(cfg: Config, r: Rules, a: Registry, m: Registry, s: State, oid: Digest, t: Tier, from: Tier)
    requires Serves(cfg, r) && StateOk(r, a, m, s) && oid in s.entries && HasTier(s.entries[oid], from)
    requires Ensure(cfg, s, oid, t).result.Ok?
    ensures var after := Ensure(cfg, s, oid, t).state.entries;
      oid in after && HasTier(after[oid], from) && after[oid].blocks == s.entries[oid].blocks
  {
    hide Serves, StateOk, Ensure, HasTier;
    EnsuredIn(cfg, r, a, m, s, oid, t);
    HasTierIsMember(s.entries[oid], from);
    HasTierIsMember(Ensure(cfg, s, oid, t).state.entries[oid], from);
  }

  /** The tier below: host memory under a device, storage under host memory. */
  function Below(t: Tier): Tier {
    if t.Accelerator? then P.Host else P.Persistent
  }

  /**
   * A demotion needs a copy in the tier it leaves, which must not be storage, and a copy or room in the tier below; out
   * of host memory it also needs an account that can take the memory back.
   */
  lemma DemoteOutcome(cfg: Config, r: Rules, a: Registry, m: Registry, s: State, oid: Digest, t: Tier)
    requires Serves(cfg, r) && StateOk(r, a, m, s)
    ensures Demote(cfg, s, oid, t).result ==
      if oid !in a then Err(NotFound)
      else if !HasTier(s.entries[oid], t) || t == P.Persistent then Err(Error.Residency)
      else if !HasTier(s.entries[oid], Below(t)) && !RoomIn(cfg, s, s.entries[oid], Below(t)) then
        Err(Refusal(cfg, Below(t)))
      else if t == P.Host && !Returns(s, s.entries[oid]) then Err(Error.Accounting) else Ok(())
  {
    hide Serves, StateOk, Ensure, RemovePlacement, HasTier, RoomIn, ReleaseAll, Refusal;
    EntryKeys(r, a, m, s);
    if oid in s.entries && HasTier(s.entries[oid], t) && t != P.Persistent {
      var x := Ensure(cfg, s, oid, Below(t));
      HeldIsPlaced(s.entries[oid], t);
      EnsureOutcome(cfg, r, a, m, s, oid, Below(t));
      if x.result.Ok? {
        KeptEnsure(cfg, r, a, m, s, oid, Below(t));
        KeptState(r, a, m, s, x.state, x.ops, {});
        EnsuredStillHeld(cfg, r, a, m, s, oid, Below(t), t);
        TakeOutcome(cfg, r, a, DescribedAfter(m, a, x.ops), x.state, oid, t);
        if t == P.Host {
          EnsureSparesHost(cfg, r, a, m, s, oid);
        }
      }
    }
  }

  /** While the account covers the arena, it can always take memory back. */
  lemma CoveredReturns(cfg: Config, r: Rules, a: Registry, m: Registry, s: State, oid: Digest)
    requires Serves(cfg, r) && StateOk(r, a, m, s) && Counted(s, false) && oid in s.entries
    requires HasTier(s.entries[oid], P.Host)
    ensures Returns(s, s.entries[oid])
  {
    hide Serves, StateOk, Counted, ReleaseAll, HasTier, RemovePlacement;
    CountedRemovePlacement(cfg, r, a, m, s, oid, P.Host, false);
    TakeOutcome(cfg, r, a, m, s, oid, P.Host);
  }

  // ---- Registration ------------------------------------------------------------------------

  /** The payload is as long as the shape says, and splits into no more blocks than allowed. */
  ghost predicate WellShaped(cfg: Config, k: CompatKey, payload: Bytes) {
    && (forall i :: 0 <= i <= |k.dims| ==> Volume(k.dims[..i]) <= U64_MAX)
    && |payload| == Mul(Volume(k.dims), ElementSize(k.dtype)) <= U64_MAX
    && 0 < cfg.blockSize && |payload| <= Mul(MAX_BLOCKS, cfg.blockSize)
  }

  /** Not too large, and worth caching: what computing it again would cost meets each of the thresholds. */
  ghost predicate Worthwhile(cfg: Config, n: nat) {
    var value := Min(cfg.cost.recomputeBaseNs + n * cfg.cost.recomputeNsPerByte, U64_MAX);
    && n <= cfg.admission.maxObjectBytes && cfg.admission.maxObjects != Some(0)
    && value >= cfg.admission.minReuseNs && value >= cfg.admission.minReconstructNs
    && value >= Min(n * cfg.admission.valuePerByteNs, U64_MAX)
  }

  lemma AdmitsIffWorthwhile(cfg: Config, n: u64)
    ensures Admits(cfg, n) <==> Worthwhile(cfg, n)
  {
    P.ReconstructIsPriced(cfg.cost, n);
  }

  lemma {:induction false} CheckedProductFits(acc: u64, dims: seq<u64>)
    ensures CheckedProduct(acc, dims).Ok? <==>
      forall i :: 0 <= i <= |dims| ==> Mul(acc, Volume(dims[..i])) <= U64_MAX
    decreases |dims|
  {
    assert dims[..0] == [] && Mul(acc, Volume(dims[..0])) == acc;
    if dims != [] {
      var next := Mul(acc, dims[0]);
      forall i | 1 <= i <= |dims|
        ensures Mul(acc, Volume(dims[..i])) == Mul(next, Volume(dims[1..][..i - 1]))
      {
        assert dims[..i][0] == dims[0] && dims[..i][1..] == dims[1..][..i - 1];
        MulAssociative(acc, dims[0], Volume(dims[1..][..i - 1]));
      }
      assert Mul(next, Volume(dims[1..][..0])) == next by { assert dims[1..][..0] == []; }
      if next <= U64_MAX {
        CheckedProductFits(next, dims[1..]);
        assert forall j :: 0 <= j <= |dims[1..]| ==>
          Mul(next, Volume(dims[1..][..j])) == Mul(acc, Volume(dims[..j + 1]));
      } else {
        assert Mul(acc, Volume(dims[..1])) == next;
      }
    }
  }

  lemma NumelFits(dims: seq<u64>)
    ensures Numel(dims).Ok? <==> forall i :: 0 <= i <= |dims| ==> Volume(dims[..i]) <= U64_MAX
  {
    CheckedProductFits(1, dims);
    assert forall n: nat :: Mul(1, n) == n;
  }

  lemma CeilDivWithin(n: nat, size: nat)
    requires size > 0
    ensures CeilDiv(n, size) <= MAX_BLOCKS <==> n <= Mul(MAX_BLOCKS, size)
  {
    var q, x := CeilDiv(n, size), n + size - 1;
    QuotientAtLeast(x, size, q, MAX_BLOCKS + 1);
    assert (MAX_BLOCKS + 1) * size == Mul(MAX_BLOCKS, size) + size;
  }

  /** The checks on the payload pass if and only if it is well shaped. */
  lemma CheckPassesIff(cfg: Config, k: CompatKey, payload: Bytes)
    ensures CheckPayload(cfg, k, payload).Ok? <==> WellShaped(cfg, k, payload)
  {
    hide Volume, Numel, CeilDiv, Accepts, Mul;
    NumelFits(k.dims);
    if Numel(k.dims).Ok? {
      NumelIsVolume(k.dims);
    }
    assert k.dims[..|k.dims|] == k.dims;
    if cfg.blockSize > 0 && |payload| < TWO_64 {
      CeilDivWithin(|payload|, cfg.blockSize);
      if Chunk(cfg.content, payload, cfg.blockSize).Ok? {
        ChunkIsAccepted(cfg.content, payload, cfg.blockSize);
      }
    }
  }

  lemma NothingLeftToEvict(cfg: Config, r: Rules, a: Registry, m: Registry, s: State, charge: nat, now: u64)
    requires StateOk(r, a, m, s) && charge > Free(WithRoom(cfg, s, charge, now).host)
    ensures forall o :: o in s.entries && o in WithRoom(cfg, s, charge, now).entries ==>
      !Evicts(WithRoom(cfg, s, charge, now).entries[o])
  {
    hide StateOk, EvictToFree, DistinctTiers, E.EvictEach, EvictionList, Evicts;
    forall o | o in s.entries
      ensures DistinctTiers(s.entries[o].placements)
    {
      DistinctOf(r, a, m, s, o);
    }
    var n := E.MakingRoom(cfg, s, charge, now);
  }

  /** The order of the checks, and what each refusal leaves. */
  lemma RegisterChecks(cfg: Config, s: State, address: Address, k: CompatKey, payload: Bytes, now: u64)
    ensures var x := Register(cfg, s, address, k, payload, now); var charge := ChargeFor(cfg, s, k, payload);
      var s1 := WithRoom(cfg, s, charge, now);
      if CheckPayload(cfg, k, payload).Err? then x.result == Err(CheckPayload(cfg, k, payload).error) && x.state == s
      else if cfg.name(address) in s.entries then x.result == Err(Exists) && x.state == s
      else if !Admits(cfg, |payload|) then x.result == Err(AdmissionRejected) && x.state == s
      else charge > Free(s1.host) ==> x.result == Err(AdmissionRejected) && x.state == s1
  {
    hide CheckPayload, Admits, StoreBlocks, EvictToFree, EnforceCapacity, NewEntry, Charged;
  }

  /**
   * A registration succeeds if and only if the payload is well shaped, the identity is new, the object is worth caching
   * and its new blocks fit once room was made. It is refused for lack of room only when nothing that could be evicted
   * is left in host memory.
   */
  lemma RegisterOutcome(cfg: Config, r: Rules, a: Registry, m: Registry, s: State, address: Address, k: CompatKey,
                        payload: Bytes, now: u64)
    requires Serves(cfg, r) && StateOk(r, a, m, s) && OpOk(cfg, r, DoRegister(address, k, payload), now)
    ensures var x := Register(cfg, s, address, k, payload, now); var oid := cfg.name(address);
      var charge := ChargeFor(cfg, s, k, payload); var s1 := WithRoom(cfg, s, charge, now);
      if !WellShaped(cfg, k, payload) then
        x.result.Err? && x.result.error in {Error.Geometry, InvalidArgument} && x.state == s
      else if oid in a then x.result == Err(Exists) && x.state == s
      else if !Worthwhile(cfg, |payload|) then x.result == Err(AdmissionRejected) && x.state == s
      else if charge > Free(s1.host) then
        && x.result == Err(AdmissionRejected) && x.state == s1
        && forall o :: o in s.entries && o in s1.entries ==> !Evicts(s1.entries[o])
      else x.result == Ok(oid)
  {
    hide Serves, StateOk, CheckPayload, Admits, Worthwhile, WellShaped, Register, WithRoom, OpOk, Evicts, Charged;
    CheckPassesIff(cfg, k, payload);
    if CheckPayload(cfg, k, payload).Err? {
      CheckErrors(cfg, k, payload);
    }
    EntryKeys(r, a, m, s);
    RegisterChecks(cfg, s, address, k, payload, now);
    if WellShaped(cfg, k, payload) && cfg.name(address) !in a {
      AdmitsIffWorthwhile(cfg, |payload|);
      var charge := ChargeFor(cfg, s, k, payload);
      if charge > Free(WithRoom(cfg, s, charge, now).host) {
        NothingLeftToEvict(cfg, r, a, m, s, charge, now);
      } else if Worthwhile(cfg, |payload|) {
        D.RegistrationSucceeds(cfg, r, a, m, s, address, k, payload, now);
        RegisterNames(cfg, s, address, k, payload, now);
      }
    }
  }

  lemma CheckErrors(cfg: Config, k: CompatKey, payload: Bytes)
    requires CheckPayload(cfg, k, payload).Err?
    ensures CheckPayload(cfg, k, payload).error in {Error.Geometry, InvalidArgument}
  {
    hide CeilDiv, Accepts, ElementSize;
    CheckedProductErrors(1, k.dims);
  }

  lemma {:induction false} CheckedProductErrors(acc: u64, dims: seq<u64>)
    ensures CheckedProduct(acc, dims).Err? ==> CheckedProduct(acc, dims).error == Error.Geometry
    decreases |dims|
  {
    if dims != [] && Mul(acc, dims[0]) <= U64_MAX {
      CheckedProductErrors(Mul(acc, dims[0]), dims[1..]);
    }
  }

  lemma RegisterNames(cfg: Config, s: State, address: Address, k: CompatKey, payload: Bytes, now: u64)
    requires Register(cfg, s, address, k, payload, now).result.Ok?
    ensures Register(cfg, s, address, k, payload, now).result.value == cfg.name(address)
  {
    hide CheckPayload, Admits, StoreBlocks, EvictToFree, EnforceCapacity, NewEntry, Charged;
  }
}

/** The integer cost model and the planner that picks the cheapest way to reuse an object. */
module Planner {
  import opened Prelude

  type BackendId = Bytes

  datatype Tier = Accelerator(backend: BackendId) | Host | Persistent

  datatype Kind = AcceleratorKind | HostKind | PersistentKind

  function KindOf(t: Tier): Kind {
    match t
    case Accelerator(_) => AcceleratorKind
    case Host => HostKind
    case Persistent => PersistentKind
  }

  datatype CostModel = CostModel(
    accelReadBw: u64, accelWriteBw: u64, hostReadBw: u64, hostWriteBw: u64, storageReadBw: u64, storageWriteBw: u64,
    transferLatencyNs: u64, restoreLatencyNs: u64, recomputeBaseNs: u64, recomputeNsPerByte: u64)

  function Clamp(x: nat): u64 {
    if x > U64_MAX then U64_MAX else x
  }

  function ReadBw(c: CostModel, k: Kind): u64 {
    match k
    case AcceleratorKind => c.accelReadBw
    case HostKind => c.hostReadBw
    case PersistentKind => c.storageReadBw
  }

  function WriteBw(c: CostModel, k: Kind): u64 {
    match k
    case AcceleratorKind => c.accelWriteBw
    case HostKind => c.hostWriteBw
    case PersistentKind => c.storageWriteBw
  }

  /** Nanoseconds to move `bytes` at a bandwidth; a dead link costs the largest word. */
  function TransferNs(bytes: u64, bandwidth: u64): u64 {
    if bandwidth == 0 then U64_MAX else Clamp(bytes * 1_000_000_000 / bandwidth)
  }

  function TransferCost(c: CostModel, src: Tier, dst: Tier, bytes: u64): u64 {
    SatAdd(c.transferLatencyNs, TransferNs(bytes, Min(ReadBw(c, KindOf(src)), WriteBw(c, KindOf(dst)))))
  }

  function RestoreCost(c: CostModel, dst: Tier, bytes: u64): u64 {
    SatAdd(c.restoreLatencyNs, TransferNs(bytes, Min(c.storageReadBw, WriteBw(c, KindOf(dst)))))
  }

  function ReconstructCost(c: CostModel, bytes: u64): u64 {
    SatAdd(c.recomputeBaseNs, Clamp(bytes * c.recomputeNsPerByte))
  }

  // ---- What the costs are ------------------------------------------------------------------

  /** The bandwidths of the model that a move out of `src` and into `dst` meets. */
  ghost predicate Meets(c: CostModel, src: Tier, dst: Tier, read: u64, write: u64) {
    && (src.Accelerator? ==> read == c.accelReadBw) && (dst.Accelerator? ==> write == c.accelWriteBw)
    && (src.Host? ==> read == c.hostReadBw) && (dst.Host? ==> write == c.hostWriteBw)
    && (src.Persistent? ==> read == c.storageReadBw) && (dst.Persistent? ==> write == c.storageWriteBw)
  }

  /** In `ns` nanoseconds, and not in one less than the next, `bytes` pass at `bw` bytes a second. */
  ghost predicate Takes(ns: nat, bytes: nat, bw: nat) {
    ns * bw <= bytes * 1_000_000_000 < (ns + 1) * bw
  }

  /**
   * The cost is the latency plus the whole nanoseconds at the slower of the two bandwidths; it is the largest word
   * exactly when that link is dead or the sum reaches the largest word.
   */
  ghost predicate Priced(cost: u64, latency: u64, bytes: u64, read: u64, write: u64) {
    var bw := if read <= write then read else write;
    && (cost == U64_MAX <==> bw == 0 || (U64_MAX - latency) * bw <= bytes * 1_000_000_000)
    && (cost < U64_MAX ==> latency <= cost && Takes(cost - latency, bytes, bw))
  }

  lemma LinkIsPriced(latency: u64, bytes: u64, read: u64, write: u64)
    ensures Priced(SatAdd(latency, TransferNs(bytes, Min(read, write))), latency, bytes, read, write)
  {
    var bw, n := Min(read, write), bytes * 1_000_000_000;
    if bw > 0 {
      var ns := n / bw;
      QuotientTakes(n, bw, ns);
      QuotientAtLeast(n, bw, ns, U64_MAX - latency);
      assert TransferNs(bytes, bw) == Clamp(ns);
    }
  }

  lemma TransferIsPriced(c: CostModel, src: Tier, dst: Tier, bytes: u64, read: u64, write: u64)
    requires Meets(c, src, dst, read, write)
    ensures Priced(TransferCost(c, src, dst, bytes), c.transferLatencyNs, bytes, read, write)
  {
    LinkIsPriced(c.transferLatencyNs, bytes, read, write);
  }

  lemma RestoreIsPriced(c: CostModel, dst: Tier, bytes: u64, read: u64, write: u64)
    requires Meets(c, Persistent, dst, read, write)
    ensures Priced(RestoreCost(c, dst, bytes), c.restoreLatencyNs, bytes, read, write)
  {
    LinkIsPriced(c.restoreLatencyNs, bytes, read, write);
  }

  lemma ReconstructIsPriced(c: CostModel, bytes: u64)
    ensures var sum := c.recomputeBaseNs + bytes * c.recomputeNsPerByte;
      ReconstructCost(c, bytes) == if sum <= U64_MAX then sum else U64_MAX
  {
  }

  datatype Action = ReuseInPlace | Transfer(from: Tier) | Restore | Reconstruct | Reject

  datatype Plan = Plan(action: Action, costNs: u64)

  function Priority(a: Action): nat {
    match a
    case ReuseInPlace => 0
    case Transfer(_) => 1
    case Restore => 2
    case Reconstruct => 3
    case Reject => 4
  }

  /** What each action costs; rejecting costs the largest word. */
  function CostOf(c: CostModel, bytes: u64, dest: Tier, a: Action): u64 {
    match a
    case ReuseInPlace => 0
    case Transfer(t) => TransferCost(c, t, dest, bytes)
    case Restore => RestoreCost(c, dest, bytes)
    case Reconstruct => ReconstructCost(c, bytes)
    case Reject => U64_MAX
  }

  /** The actions that the current placements make possible. */
  ghost predicate Available(dest: Tier, placements: seq<Tier>, canReconstruct: bool, a: Action) {
    match a
    case ReuseInPlace => dest in placements
    case Transfer(t) => t in placements && t != dest
    case Restore => Persistent in placements
    case Reconstruct => canReconstruct
    case Reject => placements == [] && !canReconstruct
  }

  /** What a plan says about its cost, in the terms of the cost model. */
  ghost predicate Costed(c: CostModel, bytes: u64, dest: Tier, plan: Plan) {
    match plan.action
    case ReuseInPlace => plan.costNs == 0
    case Transfer(src) =>
      forall read, write :: Meets(c, src, dest, read, write) ==>
        Priced(plan.costNs, c.transferLatencyNs, bytes, read, write)
    case Restore =>
      forall read, write :: Meets(c, Persistent, dest, read, write) ==>
        Priced(plan.costNs, c.restoreLatencyNs, bytes, read, write)
    case Reconstruct =>
      var sum := c.recomputeBaseNs + bytes * c.recomputeNsPerByte;
      plan.costNs == if sum <= U64_MAX then sum else U64_MAX
    case Reject => plan.costNs == U64_MAX
  }

  /** Every action is costed so; hence so are the plans that are compared and the one that is chosen. */
  lemma ActionIsCosted(c: CostModel, bytes: u64, dest: Tier, a: Action)
    ensures Costed(c, bytes, dest, Plan(a, CostOf(c, bytes, dest, a)))
  {
    hide Priced, Meets, TransferCost, RestoreCost, ReconstructCost;
    match a
    case Transfer(src) =>
      forall read, write | Meets(c, src, dest, read, write)
        ensures Priced(TransferCost(c, src, dest, bytes), c.transferLatencyNs, bytes, read, write)
      {
        TransferIsPriced(c, src, dest, bytes, read, write);
      }
    case Restore =>
      forall read, write | Meets(c, Persistent, dest, read, write)
        ensures Priced(RestoreCost(c, dest, bytes), c.restoreLatencyNs, bytes, read, write)
      {
        RestoreIsPriced(c, dest, bytes, read, write);
      }
    case Reconstruct => ReconstructIsPriced(c, bytes);
    case _ =>
  }

  predicate Better(a: Plan, b: Plan) {
    a.costNs < b.costNs || (a.costNs == b.costNs && Priority(a.action) <= Priority(b.action))
  }

  /** The first of the best candidates, as a stable sort puts it in front. */
  method Best(candidates: seq<Plan>) returns (k: nat)
    requires candidates != []
    ensures k < |candidates|
    ensures forall j :: 0 <= j < |candidates| ==> Better(candidates[k], candidates[j])
    ensures forall j :: 0 <= j < k ==> !Better(candidates[j], candidates[k])
  {
    k := 0;
    for i := 1 to |candidates|
      invariant k < i && forall j :: 0 <= j < i ==> Better(candidates[k], candidates[j])
      invariant forall j :: 0 <= j < k ==> !Better(candidates[j], candidates[k])
    {
      if !Better(candidates[k], candidates[i]) {
        k := i;
      }
    }
  }

  /** Among sources of the same cost the first listed is taken. */
  ghost predicate FirstSource(c: CostModel, bytes: u64, dest: Tier, placements: seq<Tier>, plan: Plan) {
    plan.action.Transfer? ==>
      exists i :: 0 <= i < |placements| && placements[i] == plan.action.from
        && forall j :: 0 <= j < i ==> CostOf(c, bytes, dest, Transfer(placements[j])) > plan.costNs
  }

  lemma NoSource(c: CostModel, bytes: u64, dest: Tier, placements: seq<Tier>)
    ensures FirstSource(c, bytes, dest, placements, Plan(ReuseInPlace, 0))
    ensures FirstSource(c, bytes, dest, placements, Plan(Reject, U64_MAX))
  {
  }

  lemma FirstIsFirst(c: CostModel, bytes: u64, dest: Tier, placements: seq<Tier>, candidates: seq<Plan>, k: nat)
    requires |placements| <= |candidates| && k < |candidates|
    requires forall j :: 0 <= j < |placements| ==>
      candidates[j] == Plan(Transfer(placements[j]), CostOf(c, bytes, dest, Transfer(placements[j])))
    requires forall j :: |placements| <= j < |candidates| ==> !candidates[j].action.Transfer?
    requires forall j :: 0 <= j < k ==> !Better(candidates[j], candidates[k])
    ensures FirstSource(c, bytes, dest, placements, candidates[k])
  {
    if candidates[k].action.Transfer? {
      assert placements[k] == candidates[k].action.from;
      forall j | 0 <= j < k
        ensures CostOf(c, bytes, dest, Transfer(placements[j])) > candidates[k].costNs
      {
        assert !Better(candidates[j], candidates[k]);
      }
    }
  }

  /** Every available action is among the candidates, at its cost. */
  lemma EveryActionListed(c: CostModel, bytes: u64, dest: Tier, placements: seq<Tier>, canReconstruct: bool,
                          candidates: seq<Plan>, a: Action)
    requires |placements| <= |candidates| && candidates != [] && dest !in placements
    requires forall j :: 0 <= j < |placements| ==>
      candidates[j] == Plan(Transfer(placements[j]), TransferCost(c, placements[j], dest, bytes))
    requires Persistent in placements ==>
      exists j :: 0 <= j < |candidates| && candidates[j] == Plan(Restore, RestoreCost(c, dest, bytes))
    requires canReconstruct ==>
      candidates[|candidates| - 1] == Plan(Action.Reconstruct, ReconstructCost(c, bytes))
    requires Available(dest, placements, canReconstruct, a) && !a.Reject?
    ensures exists j :: 0 <= j < |candidates| && candidates[j] == Plan(a, CostOf(c, bytes, dest, a))
  {
    hide TransferCost, RestoreCost, ReconstructCost;
    match a
    case Transfer(t) =>
      var j :| 0 <= j < |placements| && placements[j] == t;
      assert candidates[j] == Plan(a, CostOf(c, bytes, dest, a));
    case Restore =>
    case Reconstruct =>
      assert candidates[|candidates| - 1] == Plan(a, CostOf(c, bytes, dest, a));
  }

  /**
   * The decision is a cheapest available action, ties going to the smaller priority; in place wins outright;
   * it rejects exactly when nothing holds the object and it cannot be recomputed.
   */
  method Decide(c: CostModel, bytes: u64, dest: Tier, placements: seq<Tier>, canReconstruct: bool) returns (plan: Plan)
    ensures Available(dest, placements, canReconstruct, plan.action)
    ensures plan.costNs == CostOf(c, bytes, dest, plan.action) && Costed(c, bytes, dest, plan)
    ensures dest in placements ==> plan.action == ReuseInPlace
    ensures dest !in placements ==> forall a :: Available(dest, placements, canReconstruct, a) ==>
      Better(plan, Plan(a, CostOf(c, bytes, dest, a)))
    ensures plan.action == Reject <==> placements == [] && !canReconstruct
    ensures FirstSource(c, bytes, dest, placements, plan)
  {
    hide TransferCost, RestoreCost, ReconstructCost, Costed, FirstSource;
    ActionIsCosted(c, bytes, dest, ReuseInPlace);
    ActionIsCosted(c, bytes, dest, Reject);
    NoSource(c, bytes, dest, placements);
    for i := 0 to |placements|
      invariant forall j :: 0 <= j < i ==> placements[j] != dest
    {
      if placements[i] == dest {
        return Plan(ReuseInPlace, 0);
      }
    }
    var candidates: seq<Plan> := [];
    for i := 0 to |placements|
      invariant |candidates| == i
      invariant forall j :: 0 <= j < i ==>
        candidates[j] == Plan(Transfer(placements[j]), TransferCost(c, placements[j], dest, bytes))
    {
      candidates := candidates + [Plan(Transfer(placements[i]), TransferCost(c, placements[i], dest, bytes))];
    }
    if Persistent in placements {
      candidates := candidates + [Plan(Restore, RestoreCost(c, dest, bytes))];
    }
    ghost var stored := |candidates| - 1;
    if canReconstruct {
      candidates := candidates + [Plan(Action.Reconstruct, ReconstructCost(c, bytes))];
    }
    assert Persistent in placements ==> candidates[stored] == Plan(Restore, RestoreCost(c, dest, bytes));
    if candidates == [] {
      return Plan(Reject, U64_MAX);
    }
    var k := Best(candidates);
    plan := candidates[k];
    FirstIsFirst(c, bytes, dest, placements, candidates, k);
    ActionIsCosted(c, bytes, dest, plan.action);
    forall a | Available(dest, placements, canReconstruct, a)
      ensures Better(plan, Plan(a, CostOf(c, bytes, dest, a)))
    {
      EveryActionListed(c, bytes, dest, placements, canReconstruct, candidates, a);
    }
  }

  /** No way of having the object at the destination is cheaper than the decision. */
  lemma DecisionIsCheapest(c: CostModel, bytes: u64, dest: Tier, placements: seq<Tier>, canReconstruct: bool,
                           plan: Plan)
    requires dest !in placements
    requires forall a :: Available(dest, placements, canReconstruct, a) ==>
      Better(plan, Plan(a, CostOf(c, bytes, dest, a)))
    ensures forall t :: t in placements ==> plan.costNs <= TransferCost(c, t, dest, bytes)
    ensures Persistent in placements ==> plan.costNs <= RestoreCost(c, dest, bytes)
    ensures canReconstruct ==> plan.costNs <= ReconstructCost(c, bytes)
  {
    hide TransferCost, RestoreCost, ReconstructCost;
    forall t | t in placements
      ensures plan.costNs <= TransferCost(c, t, dest, bytes)
    {
      assert Available(dest, placements, canReconstruct, Transfer(t));
    }
    assert Persistent in placements ==> Available(dest, placements, canReconstruct, Restore);
    assert canReconstruct ==> Available(dest, placements, canReconstruct, Action.Reconstruct);
  }

  /** When moving out of storage has no more latency than restoring, restoring is never chosen. */
  lemma RestoreNeverWins(c: CostModel, bytes: u64, dest: Tier, placements: seq<Tier>, canReconstruct: bool, plan: Plan)
    requires c.transferLatencyNs <= c.restoreLatencyNs && dest !in placements
    requires Available(dest, placements, canReconstruct, plan.action)
    requires plan.costNs == CostOf(c, bytes, dest, plan.action)
    requires forall a :: Available(dest, placements, canReconstruct, a) ==>
      Better(plan, Plan(a, CostOf(c, bytes, dest, a)))
    ensures plan.action != Restore
  {
    if plan.action == Restore {
      assert Available(dest, placements, canReconstruct, Transfer(Persistent));
    }
  }
}

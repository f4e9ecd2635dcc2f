/** The keep-score, the order in which candidates are evicted, and the plan that frees a deficit. */
module Eviction {
  import opened Prelude

  const I64_MAX: int := 0x7FFF_FFFF_FFFF_FFFF
  const I64_MIN: int := -0x8000_0000_0000_0000

  type i64 = x: int | -0x8000_0000_0000_0000 <= x <= 0x7FFF_FFFF_FFFF_FFFF

  datatype Policy = Policy(reuse: u64, reconstruct: u64, age: u64, size: u64, durableBonus: u64, priority: u64)

  datatype Evictable = Evictable(id: Bytes, bytes: u64, reuseCount: u64, ageSeconds: u64,
                                 reconstructNs: u64, priority: u32, durable: bool)

  /** The machine's reinterpretation of an unsigned word as a signed one. */
  function AsSigned(x: u64): i64 {
    if x < TWO_63 then x else x - TWO_64
  }

  /** Signed addition with wrap-around: score sums are not checked. */
  function Wrap(x: int): i64 {
    AsSigned(x % TWO_64)
  }

  function SatMul(a: i64, b: i64): i64 {
    var p := a * b;
    if p > I64_MAX then I64_MAX else if p < I64_MIN then I64_MIN else p
  }

  /** Division by 1024, truncating toward zero. */
  function Kibibytes(a: i64): i64 {
    if a < 0 then 0 - (0 - a) / 1024 else a / 1024
  }

  /** The running sum of the score's terms. */
  function Accumulate(reuse: i64, rebuild: i64, age: i64, size: i64, bonus: i64, priority: i64): i64 {
    Wrap(Wrap(Wrap(Wrap(Wrap(reuse + rebuild) - age) - size) + bonus) + priority)
  }

  function KeepScore(p: Policy, e: Evictable): i64 {
    Accumulate(
      SatMul(AsSigned(e.reuseCount), AsSigned(p.reuse)),
      SatMul(AsSigned(e.reconstructNs), AsSigned(p.reconstruct)),
      SatMul(AsSigned(e.ageSeconds), AsSigned(p.age)),
      SatMul(Kibibytes(AsSigned(e.bytes)), AsSigned(p.size)),
      if e.durable then AsSigned(p.durableBonus) else 0,
      SatMul(AsSigned(e.priority), AsSigned(p.priority)))
  }

  function Product(a: nat, b: nat): nat {
    a * b
  }

  function Gain(p: Policy, e: Evictable): nat {
    Product(e.reuseCount, p.reuse) + Product(e.reconstructNs, p.reconstruct) + Product(e.priority,
      p.priority) + p.durableBonus
  }

  function Penalty(p: Policy, e: Evictable): nat {
    Product(e.ageSeconds, p.age) + Product(e.bytes / 1024, p.size)
  }

  ghost predicate SmallWords(p: Policy, e: Evictable) {
    && e.reuseCount < TWO_63 && p.reuse < TWO_63 && e.reconstructNs < TWO_63 && p.reconstruct < TWO_63
    && e.ageSeconds < TWO_63 && p.age < TWO_63 && e.bytes < TWO_63 && p.size < TWO_63
    && p.durableBonus < TWO_63 && p.priority < TWO_63
  }

  lemma SatMulExact(a: nat, b: nat, bound: nat)
    requires a * b <= bound <= I64_MAX && a <= I64_MAX && b <= I64_MAX
    ensures SatMul(a, b) == a * b >= 0
  {
  }

  lemma WrapExact(x: int)
    requires I64_MIN <= x <= I64_MAX
    ensures Wrap(x) == x
  {
  }

  lemma AccumulateExact(reuse: i64, rebuild: i64, age: i64, size: i64, bonus: i64, priority: i64)
    requires 0 <= reuse && 0 <= rebuild && 0 <= age && 0 <= size && 0 <= bonus && 0 <= priority
    requires reuse + rebuild + bonus + priority <= I64_MAX && age + size <= I64_MAX
    ensures Accumulate(reuse, rebuild, age, size, bonus, priority) == reuse + rebuild - age - size + bonus + priority
  {
    WrapExact(reuse + rebuild);
    WrapExact(reuse + rebuild - age);
    WrapExact(reuse + rebuild - age - size);
    WrapExact(reuse + rebuild - age - size + bonus);
    WrapExact(reuse + rebuild - age - size + bonus + priority);
  }

  /** Within these bounds no cast, product or sum of the score overflows: it is the plain weighted sum. */
  lemma KeepScoreIsWeightedSum(p: Policy, e: Evictable)
    requires SmallWords(p, e) && Gain(p, e) <= I64_MAX && Penalty(p, e) <= I64_MAX
    ensures KeepScore(p, e) == Gain(p, e) - (if e.durable then 0 else p.durableBonus) - Penalty(p, e)
  {
    var reuse, rebuild := Product(e.reuseCount, p.reuse), Product(e.reconstructNs, p.reconstruct);
    var priority, age, size := Product(e.priority, p.priority), Product(e.ageSeconds, p.age),
      Product(e.bytes / 1024, p.size);
    SatMulExact(e.reuseCount, p.reuse, reuse);
    SatMulExact(e.reconstructNs, p.reconstruct, rebuild);
    SatMulExact(e.priority, p.priority, priority);
    SatMulExact(e.ageSeconds, p.age, age);
    SatMulExact(e.bytes / 1024, p.size, size);
    AccumulateExact(reuse, rebuild, age, size, if e.durable then p.durableBonus else 0, priority);
  }

  // ---- The eviction order ------------------------------------------------------------------

  /** The order is established for any score; the runtime ranks by `e => KeepScore(policy, e)`. */
  type Score = Evictable -> int

  /** Lexicographic order on identities, as strings are compared. */
  predicate LexLeq(a: Bytes, b: Bytes)
    decreases |a|
  {
    a == [] || (b != [] && (a[0] < b[0] || (a[0] == b[0] && LexLeq(a[1..], b[1..]))))
  }

  /** Dictionary order: a beginning of the other, or smaller at the first difference. */
  lemma {:induction false} LexIsDictionary(a: Bytes, b: Bytes)
    ensures LexLeq(a, b) <==> a <= b || exists i :: 0 <= i < |a| && i < |b| && a[..i] == b[..i] && a[i] < b[i]
    decreases |a|
  {
    if a != [] && b != [] && a[0] == b[0] {
      var x, y := a[1..], b[1..];
      LexIsDictionary(x, y);
      assert a == [a[0]] + x && b == [b[0]] + y;
      if i :| 0 <= i < |x| && i < |y| && x[..i] == y[..i] && x[i] < y[i] {
        assert a[..i + 1] == [a[0]] + x[..i] && b[..i + 1] == [b[0]] + y[..i] && a[i + 1] < b[i + 1];
      }
      if i :| 0 <= i < |a| && i < |b| && a[..i] == b[..i] && a[i] < b[i] {
        assert i > 0 && x[..i - 1] == a[..i][1..] && y[..i - 1] == b[..i][1..] && x[i - 1] < y[i - 1];
      }
      assert a <= b <==> x <= y;
    } else if a != [] && b != [] {
      assert a[..0] == b[..0];
      if i :| 0 <= i < |a| && i < |b| && a[..i] == b[..i] && a[i] < b[i] {
        assert i > 0 ==> a[..i][0] == b[..i][0];
      }
    }
  }

  lemma {:induction false} LexTotal(a: Bytes, b: Bytes)
    ensures LexLeq(a, b) || LexLeq(b, a)
    ensures LexLeq(a, b) && LexLeq(b, a) ==> a == b
    decreases |a|
  {
    if a != [] && b != [] {
      LexTotal(a[1..], b[1..]);
      assert a == [a[0]] + a[1..] && b == [b[0]] + b[1..];
    }
  }

  lemma {:induction false} LexTransitive(a: Bytes, b: Bytes, c: Bytes)
    requires LexLeq(a, b) && LexLeq(b, c)
    ensures LexLeq(a, c)
    decreases |a|
  {
    if a != [] && a[0] == b[0] == c[0] {
      LexTransitive(a[1..], b[1..], c[1..]);
    }
  }

  /** Evicted no later than: smaller score first, ties by identity. */
  predicate Before(score: Score, a: Evictable, b: Evictable) {
    var sa, sb := score(a), score(b);
    sa < sb || (sa == sb && LexLeq(a.id, b.id))
  }

  lemma BeforeTotal(score: Score, a: Evictable, b: Evictable)
    ensures Before(score, a, b) || Before(score, b, a)
    ensures Before(score, a, b) && Before(score, b, a) ==> a.id == b.id
  {
    LexTotal(a.id, b.id);
  }

  lemma BeforeTransitive(score: Score, a: Evictable, b: Evictable, c: Evictable)
    requires Before(score, a, b) && Before(score, b, c)
    ensures Before(score, a, c)
  {
    if score(a) == score(b) == score(c) {
      LexTransitive(a.id, b.id, c.id);
    }
  }

  ghost predicate Sorted(score: Score, s: seq<Evictable>) {
    forall i, j :: 0 <= i < j < |s| ==> Before(score, s[i], s[j])
  }

  /** An identity names one candidate. */
  ghost predicate IdsDetermine(m: multiset<Evictable>) {
    forall a, b :: a in m && b in m && a.id == b.id ==> a == b
  }

  function Insert(score: Score, e: Evictable, s: seq<Evictable>): (r: seq<Evictable>)
    ensures multiset(r) == multiset(s) + multiset{e}
  {
    if s == [] then [e]
    else if Before(score, e, s[0]) then [e] + s
    else
      assert s == [s[0]] + s[1..];
      [s[0]] + Insert(score, e, s[1..])
  }

  /** The candidates sorted for eviction. */
  function EvictionOrder(score: Score, s: seq<Evictable>): (r: seq<Evictable>)
    ensures multiset(r) == multiset(s)
  {
    if s == [] then []
    else
      assert s == [s[0]] + s[1..];
      Insert(score, s[0], EvictionOrder(score, s[1..]))
  }

  lemma {:induction false} InsertKeepsSorted(score: Score, e: Evictable, s: seq<Evictable>)
    requires Sorted(score, s)
    ensures Sorted(score, Insert(score, e, s))
  {
    if s != [] {
      if Before(score, e, s[0]) {
        forall j | 0 < j < |s|
          ensures Before(score, e, s[j])
        {
          BeforeTransitive(score, e, s[0], s[j]);
        }
      } else {
        var r := Insert(score, e, s[1..]);
        InsertKeepsSorted(score, e, s[1..]);
        BeforeTotal(score, e, s[0]);
        forall j | 0 <= j < |r|
          ensures Before(score, s[0], r[j])
        {
          assert r[j] in multiset(r);
          assert r[j] == e || r[j] in s[1..];
        }
      }
    }
  }

  lemma {:induction false} OrderIsSorted(score: Score, s: seq<Evictable>)
    ensures Sorted(score, EvictionOrder(score, s))
  {
    if s != [] {
      OrderIsSorted(score, s[1..]);
      InsertKeepsSorted(score, s[0], EvictionOrder(score, s[1..]));
    }
  }

  /** The first of a sorted sequence comes before each of its elements. */
  lemma HeadFirst(score: Score, s: seq<Evictable>, x: Evictable)
    requires Sorted(score, s) && x in s
    ensures Before(score, s[0], x)
  {
    var i :| 0 <= i < |s| && s[i] == x;
    BeforeTotal(score, x, x);
  }

  lemma TailMultiset(s: seq<Evictable>)
    requires s != []
    ensures multiset(s[1..]) == multiset(s) - multiset{s[0]}
  {
    assert s == [s[0]] + s[1..];
  }

  lemma SortedHeads(score: Score, s: seq<Evictable>, t: seq<Evictable>)
    requires Sorted(score, s) && Sorted(score, t) && multiset(s) == multiset(t) && IdsDetermine(multiset(s)) && s != []
    ensures t != [] && s[0] == t[0]
  {
    assert s[0] in multiset(t);
    assert t[0] in multiset(s);
    HeadFirst(score, s, t[0]);
    HeadFirst(score, t, s[0]);
    BeforeTotal(score, s[0], t[0]);
  }

  lemma SortedTails(score: Score, s: seq<Evictable>, t: seq<Evictable>)
    requires Sorted(score, s) && multiset(s) == multiset(t) && IdsDetermine(multiset(s)) && s != [] && t != []
    requires s[0] == t[0]
    ensures multiset(s[1..]) == multiset(t[1..]) && IdsDetermine(multiset(s[1..])) && Sorted(score, s[1..])
  {
    TailMultiset(s);
    TailMultiset(t);
    assert multiset(s[1..]) <= multiset(s);
  }

  lemma {:induction false} SortedUnique(score: Score, s: seq<Evictable>, t: seq<Evictable>)
    requires Sorted(score, s) && Sorted(score, t) && multiset(s) == multiset(t) && IdsDetermine(multiset(s))
    ensures s == t
    decreases |s|
  {
    if s == [] {
      assert |multiset(t)| == 0;
    } else {
      SortedHeads(score, s, t);
      SortedTails(score, s, t);
      SortedUnique(score, s[1..], t[1..]);
      assert s == [s[0]] + s[1..] && t == [t[0]] + t[1..];
    }
  }

  /** The order does not depend on the order in which the candidates were enumerated. */
  lemma OrderIgnoresEnumeration(score: Score, s: seq<Evictable>, t: seq<Evictable>)
    requires multiset(s) == multiset(t) && IdsDetermine(multiset(s))
    ensures EvictionOrder(score, s) == EvictionOrder(score, t)
  {
    OrderIsSorted(score, s);
    OrderIsSorted(score, t);
    SortedUnique(score, EvictionOrder(score, s), EvictionOrder(score, t));
  }

  // ---- The eviction plan -------------------------------------------------------------------

  function TotalBytes(s: seq<Evictable>): nat {
    if s == [] then 0 else TotalBytes(s[..|s| - 1]) + s[|s| - 1].bytes
  }

  /** The shortest prefix that frees `need` bytes, or everything when nothing suffices. */
  ghost predicate ShortestPrefix(order: seq<Evictable>, need: nat, k: nat) {
    && k <= |order|
    && (forall j :: 0 <= j < k ==> TotalBytes(order[..j]) < need)
    && (k < |order| ==> TotalBytes(order[..k]) >= need)
  }

  lemma ShortestPrefixUnique(order: seq<Evictable>, need: nat, k: nat, l: nat)
    requires ShortestPrefix(order, need, k) && ShortestPrefix(order, need, l)
    ensures k == l
  {
  }

  method EvictionPlan(score: Score, entries: seq<Evictable>, used: u64, capacity: u64) returns (evict: seq<Evictable>)
    ensures var order := EvictionOrder(score, entries);
      |evict| <= |order| && evict == order[..|evict|] && ShortestPrefix(order, SatSub(used, capacity), |evict|)
  {
    hide EvictionOrder;
    var need := SatSub(used, capacity);
    var order := EvictionOrder(score, entries);
    evict := [];
    for i := 0 to |order|
      invariant evict == order[..i]
      invariant need == SatSub(SatSub(used, capacity), TotalBytes(order[..i]))
      invariant forall j :: 0 <= j < i ==> TotalBytes(order[..j]) < SatSub(used, capacity)
    {
      if need == 0 {
        break;
      }
      evict := evict + [order[i]];
      need := SatSub(need, order[i].bytes);
      assert order[..i + 1][..i] == order[..i];
    }
  }

  // ---- Candidates gathered from a hash map -------------------------------------------------

  /** Some enumeration of a set of candidates. */
  ghost function Enumerate(s: set<Evictable>): (r: seq<Evictable>)
    ensures multiset(r) == multiset(s)
  {
    if s == {} then [] else
      var e :| e in s;
      assert s == {e} + (s - {e});
      [e] + Enumerate(s - {e})
  }

  /** The eviction order of a set of candidates. */
  ghost function OrderOf(score: Score, s: set<Evictable>): seq<Evictable> {
    EvictionOrder(score, Enumerate(s))
  }

  /** However a hash map enumerates the candidates, the order is the same. */
  lemma AnyEnumerationGivesOrder(score: Score, s: set<Evictable>, cands: seq<Evictable>)
    requires multiset(cands) == multiset(s)
    requires forall a, b :: a in s && b in s && a.id == b.id ==> a == b
    ensures EvictionOrder(score, cands) == OrderOf(score, s)
  {
    OrderIgnoresEnumeration(score, cands, Enumerate(s));
  }
}

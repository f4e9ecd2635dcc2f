/** Vocabulary shared by every component: machine integers, byte strings, digests, errors. */
module Prelude {
  const TWO_32: int := 0x1_0000_0000
  const TWO_63: int := 0x8000_0000_0000_0000
  const TWO_64: int := 0x1_0000_0000_0000_0000
  const U64_MAX: int := 0xFFFF_FFFF_FFFF_FFFF

  type byte = x: int | 0 <= x < 256
  type u32 = x: int | 0 <= x < TWO_32
  type u64 = x: int | 0 <= x < TWO_64
  type Bytes = seq<byte>

  /** A 32-byte content digest. */
  type Digest = d: Bytes | |d| == 32 witness seq(32, i => 0)

  datatype Option<+T> = None | Some(value: T)

  /** The kinds of failure; the human-readable texts they carry are not modelled. */
  datatype Error =
    | InvalidArgument | Geometry | Compatibility | NotFound | Exists | AdmissionRejected
    | Integrity | Persistence | Protocol | Authority | Residency | Backend | Reconstruct | Accounting

  datatype Result<+T> = Ok(value: T) | Err(error: Error) {
    predicate IsFailure() {
      Err?
    }

    function PropagateFailure<U>(): Result<U>
      requires Err?
    {
      Err(error)
    }

    function Extract(): T
      requires Ok?
    {
      value
    }
  }

  /**
   * The two content functions. They are parameters: what is proved of the cache holds for every
   * digest and checksum function, and a digest is assumed collision-free only where a lemma says so.
   */
  datatype Content = Content(hash: Bytes -> Digest, crc: Bytes -> u32)

  /** No two distinct byte strings of `known` share a digest. */
  ghost predicate NoCollision(c: Content, known: iset<Bytes>) {
    forall a, b :: a in known && b in known && c.hash(a) == c.hash(b) ==> a == b
  }

  function Min(a: int, b: int): int {
    if a <= b then a else b
  }

  function SatAdd(a: u64, b: u64): u64 {
    if a + b > U64_MAX then U64_MAX else a + b
  }

  function SatSub(a: nat, b: nat): nat {
    if a < b then 0 else a - b
  }

  lemma MulLeq(a: int, b: int, w: nat)
    requires a <= b
    ensures a * w <= b * w
  {
  }

  lemma QuotientTakes(n: nat, d: nat, q: nat)
    requires d > 0 && q == n / d
    ensures q * d <= n < (q + 1) * d
  {
    assert n == d * (n / d) + n % d;
  }

  /** A quotient is at least `k` if and only if `k` times the divisor is not too much. */
  lemma QuotientAtLeast(n: nat, d: nat, q: nat, k: int)
    requires d > 0 && q == n / d
    ensures q >= k <==> k * d <= n
  {
    QuotientTakes(n, d, q);
    if q >= k {
      MulLeq(k, q, d);
    } else {
      MulLeq(q + 1, k, d);
    }
  }
}

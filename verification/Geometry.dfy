/** Shapes, element counts, layouts, and the address maps that strides define. */
module Shapes {
  import opened Prelude

  const MAX_RANK: nat := 32
  const MAX_DIM: nat := 0xFFFF_FFFF

  datatype Layout = RowMajor | ColMajor | Strided(strides: seq<u64>)

  function Mul(a: nat, b: nat): nat {
    a * b
  }

  /** The mathematical element count: the product of all dimensions. */
  function Volume(dims: seq<nat>): nat {
    if dims == [] then 1 else Mul(dims[0], Volume(dims[1..]))
  }

  /** The checked product loop, from an accumulator: an overflow of any partial product is an error. */
  function CheckedProduct(acc: u64, dims: seq<u64>): Result<u64>
    decreases |dims|
  {
    if dims == [] then Ok(acc)
    else if Mul(acc, dims[0]) > U64_MAX then Err(Geometry)
    else CheckedProduct(Mul(acc, dims[0]), dims[1..])
  }

  function Numel(dims: seq<u64>): Result<u64> {
    CheckedProduct(1, dims)
  }

  function ByteLen(dims: seq<u64>, elem: u64): Result<u64> {
    if elem == 0 || elem > U64_MAX / 8 then Err(Geometry)
    else
      var n :- Numel(dims);
      if Mul(n, elem) > U64_MAX then Err(Geometry) else Ok(Mul(n, elem))
  }

  method CountElements(dims: seq<u64>) returns (r: Result<u64>)
    ensures r == Numel(dims)
  {
    var n: u64 := 1;
    for i := 0 to |dims|
      invariant CheckedProduct(1, dims) == CheckedProduct(n, dims[i..])
    {
      assert dims[i..][1..] == dims[i + 1..];
      if Mul(n, dims[i]) > U64_MAX {
        return Err(Geometry);
      }
      n := Mul(n, dims[i]);
    }
    return Ok(n);
  }

  lemma MulAssociative(a: nat, b: nat, c: nat)
    ensures Mul(Mul(a, b), c) == Mul(a, Mul(b, c))
  {
  }

  lemma {:induction false} CheckedProductValue(acc: u64, dims: seq<u64>)
    requires CheckedProduct(acc, dims).Ok?
    ensures CheckedProduct(acc, dims).value == Mul(acc, Volume(dims))
    decreases |dims|
  {
    if dims != [] {
      CheckedProductValue(Mul(acc, dims[0]), dims[1..]);
      MulAssociative(acc, dims[0], Volume(dims[1..]));
    }
  }

  /** A successful count is the mathematical volume. */
  lemma NumelIsVolume(dims: seq<u64>)
    requires Numel(dims).Ok?
    ensures Numel(dims).value == Volume(dims)
  {
    CheckedProductValue(1, dims);
  }

  // ---- Strides -----------------------------------------------------------------------------

  predicate InRange(index: seq<nat>, dims: seq<nat>) {
    |index| == |dims| && forall i :: 0 <= i < |dims| ==> index[i] < dims[i]
  }

  /** Where the element with this index lies. */
  function Offset(index: seq<nat>, strides: seq<nat>): nat
    requires |index| == |strides|
  {
    if index == [] then 0 else Mul(index[0], strides[0]) + Offset(index[1..], strides[1..])
  }

  function RowMajorStrides(dims: seq<nat>): (s: seq<nat>)
    ensures |s| == |dims|
  {
    if dims == [] then [] else [Volume(dims[1..])] + RowMajorStrides(dims[1..])
  }

  function ColMajorStrides(dims: seq<nat>): (s: seq<nat>)
    ensures |s| == |dims|
  {
    if dims == [] then [] else ColMajorStrides(dims[..|dims| - 1]) + [Volume(dims[..|dims| - 1])]
  }

  lemma {:induction false} VolumeSnoc(dims: seq<nat>, d: nat)
    ensures Volume(dims + [d]) == Mul(Volume(dims), d)
  {
    if dims == [] {
      assert Volume([d]) == Mul(d, Volume([d][1..])) == d;
    } else {
      assert (dims + [d])[1..] == dims[1..] + [d];
      VolumeSnoc(dims[1..], d);
      MulAssociative(dims[0], Volume(dims[1..]), d);
    }
  }

  lemma {:induction false} OffsetSnoc(index: seq<nat>, i: nat, strides: seq<nat>, s: nat)
    requires |index| == |strides|
    ensures Offset(index + [i], strides + [s]) == Offset(index, strides) + Mul(i, s)
  {
    if index == [] {
      assert Offset([i][1..], [s][1..]) == 0;
    } else {
      assert (index + [i])[1..] == index[1..] + [i] && (strides + [s])[1..] == strides[1..] + [s];
      OffsetSnoc(index[1..], i, strides[1..], s);
    }
  }

  lemma RowMajorEmpty(dims: seq<nat>)
    requires dims == []
    ensures Volume(dims) == 1 && RowMajorStrides(dims) == []
  {
  }

  lemma RowMajorStep(dims: seq<nat>, i: nat)
    requires i < |dims|
    ensures Volume(dims[i..]) == Mul(dims[i], Volume(dims[i + 1..]))
    ensures RowMajorStrides(dims[i..]) == [Volume(dims[i + 1..])] + RowMajorStrides(dims[i + 1..])
  {
    hide Mul;
    assert dims[i..][0] == dims[i] && dims[i..][1..] == dims[i + 1..];
  }

  /** The row-major builder runs from the last dimension down, checking every suffix product. */
  method BuildRowMajor(dims: seq<u64>) returns (r: Result<seq<nat>>)
    ensures r.Ok? <==> forall i :: 0 <= i <= |dims| ==> Volume(dims[i..]) <= U64_MAX
    ensures r.Ok? ==> r.value == RowMajorStrides(dims)
  {
    hide Mul, Volume, RowMajorStrides;
    var strides := new nat[|dims|](_ => 0);
    ghost var built: seq<nat> := [];
    var acc: nat := 1;
    var i := |dims|;
    RowMajorEmpty(dims[|dims|..]);
    while i > 0
      invariant 0 <= i <= |dims|
      invariant acc == Volume(dims[i..])
      invariant built == RowMajorStrides(dims[i..])
      invariant forall j :: i <= j < |dims| ==> strides[j] == built[j - i]
      invariant forall j :: i <= j <= |dims| ==> Volume(dims[j..]) <= U64_MAX
    {
      i := i - 1;
      RowMajorStep(dims, i);
      strides[i] := acc;
      built := [acc] + built;
      acc := Mul(dims[i], acc);
      if acc > U64_MAX {
        return Err(Geometry);
      }
    }
    assert dims[0..] == dims && strides[..] == built;
    return Ok(strides[..]);
  }

  /** The column-major builder runs from the first dimension up, checking every prefix product. */
  method BuildColMajor(dims: seq<u64>) returns (r: Result<seq<nat>>)
    ensures r.Ok? <==> forall i :: 0 <= i <= |dims| ==> Volume(dims[..i]) <= U64_MAX
    ensures r.Ok? ==> r.value == ColMajorStrides(dims)
  {
    var strides := new nat[|dims|](_ => 0);
    var acc: nat := 1;
    for i := 0 to |dims|
      invariant acc == Volume(dims[..i])
      invariant strides[..i] == ColMajorStrides(dims[..i])
      invariant forall j :: 0 <= j <= i ==> Volume(dims[..j]) <= U64_MAX
    {
      ghost var before := strides[..i];
      strides[i] := acc;
      assert strides[..i + 1] == before + [acc];
      assert dims[..i + 1] == dims[..i] + [dims[i]] && dims[..i + 1][..i] == dims[..i];
      VolumeSnoc(dims[..i], dims[i]);
      acc := Mul(acc, dims[i]);
      if acc > U64_MAX {
        return Err(Geometry);
      }
    }
    assert dims[..|dims|] == dims && strides[..|dims|] == strides[..];
    return Ok(strides[..]);
  }

  /** `i` blocks of `width`, and `r` into the next one: below `n` blocks when `i < n` and `r < width`. */
  lemma DigitBound(i: nat, n: nat, r: nat, width: nat)
    requires i < n && r < width
    ensures Mul(i, width) + r < Mul(n, width)
  {
    assert Mul(n, width) == Mul(i, width) + Mul(n - i - 1, width) + width;
  }

  lemma DigitUnique(i: nat, r: nat, j: nat, t: nat, width: nat)
    requires r < width && t < width && Mul(i, width) + r == Mul(j, width) + t
    ensures i == j && r == t
  {
    if i < j {
      DigitBound(i, j, r, width);
    } else if j < i {
      DigitBound(j, i, t, width);
    }
  }

  lemma MulMonotone(a: nat, b: nat, k: nat)
    requires a <= b
    ensures Mul(a, k) <= Mul(b, k)
  {
    assert Mul(b, k) == Mul(a, k) + Mul(b - a, k);
  }

  lemma DigitSplit(n: nat, d: nat, width: nat)
    requires n < Mul(d, width)
    ensures width > 0 && n / width < d && n % width < width && n == Mul(n / width, width) + n % width
  {
    assert width > 0;
    assert n == (n / width) * width + n % width;
    if n / width >= d {
      MulMonotone(d, n / width, width);
    }
  }

  lemma {:induction false} RowMajorBelowVolume(dims: seq<nat>, index: seq<nat>)
    requires InRange(index, dims)
    ensures Offset(index, RowMajorStrides(dims)) < Volume(dims)
  {
    if dims != [] {
      RowMajorBelowVolume(dims[1..], index[1..]);
      DigitBound(index[0], dims[0], Offset(index[1..], RowMajorStrides(dims[1..])), Volume(dims[1..]));
    }
  }

  lemma {:induction false} RowMajorInjective(dims: seq<nat>, a: seq<nat>, b: seq<nat>)
    requires InRange(a, dims) && InRange(b, dims)
    requires Offset(a, RowMajorStrides(dims)) == Offset(b, RowMajorStrides(dims))
    ensures a == b
  {
    if dims != [] {
      var st := RowMajorStrides(dims[1..]);
      RowMajorBelowVolume(dims[1..], a[1..]);
      RowMajorBelowVolume(dims[1..], b[1..]);
      DigitUnique(a[0], Offset(a[1..], st), b[0], Offset(b[1..], st), Volume(dims[1..]));
      RowMajorInjective(dims[1..], a[1..], b[1..]);
      assert a == [a[0]] + a[1..] && b == [b[0]] + b[1..];
    }
  }

  /** Every position below the volume is reached: the index with that offset. */
  lemma {:induction false} RowMajorOnto(dims: seq<nat>, n: nat) returns (index: seq<nat>)
    requires n < Volume(dims)
    ensures InRange(index, dims) && Offset(index, RowMajorStrides(dims)) == n
  {
    if dims == [] {
      index := [];
    } else {
      DigitSplit(n, dims[0], Volume(dims[1..]));
      var rest := RowMajorOnto(dims[1..], n % Volume(dims[1..]));
      index := [n / Volume(dims[1..])] + rest;
      assert index[1..] == rest;
    }
  }

  lemma ColMajorStep(dims: seq<nat>, index: seq<nat>)
    requires InRange(index, dims) && dims != []
    ensures var k := |dims| - 1;
      && InRange(index[..k], dims[..k])
      && Offset(index, ColMajorStrides(dims)) ==
         Offset(index[..k], ColMajorStrides(dims[..k])) + Mul(index[k], Volume(dims[..k]))
      && Volume(dims) == Mul(dims[k], Volume(dims[..k]))
  {
    var k := |dims| - 1;
    assert dims == dims[..k] + [dims[k]] && index == index[..k] + [index[k]];
    VolumeSnoc(dims[..k], dims[k]);
    OffsetSnoc(index[..k], index[k], ColMajorStrides(dims[..k]), Volume(dims[..k]));
  }

  lemma {:induction false} ColMajorBelowVolume(dims: seq<nat>, index: seq<nat>)
    requires InRange(index, dims)
    ensures Offset(index, ColMajorStrides(dims)) < Volume(dims)
    decreases |dims|
  {
    if dims != [] {
      var k := |dims| - 1;
      ColMajorStep(dims, index);
      ColMajorBelowVolume(dims[..k], index[..k]);
      DigitBound(index[k], dims[k], Offset(index[..k], ColMajorStrides(dims[..k])), Volume(dims[..k]));
    }
  }

  lemma {:induction false} ColMajorInjective(dims: seq<nat>, a: seq<nat>, b: seq<nat>)
    requires InRange(a, dims) && InRange(b, dims)
    requires Offset(a, ColMajorStrides(dims)) == Offset(b, ColMajorStrides(dims))
    ensures a == b
    decreases |dims|
  {
    if dims != [] {
      var k := |dims| - 1;
      var st := ColMajorStrides(dims[..k]);
      ColMajorStep(dims, a);
      ColMajorStep(dims, b);
      ColMajorBelowVolume(dims[..k], a[..k]);
      ColMajorBelowVolume(dims[..k], b[..k]);
      DigitUnique(a[k], Offset(a[..k], st), b[k], Offset(b[..k], st), Volume(dims[..k]));
      ColMajorInjective(dims[..k], a[..k], b[..k]);
      assert a == a[..k] + [a[k]] && b == b[..k] + [b[k]];
    }
  }

  lemma {:induction false} ColMajorOnto(dims: seq<nat>, n: nat) returns (index: seq<nat>)
    requires n < Volume(dims)
    ensures InRange(index, dims) && Offset(index, ColMajorStrides(dims)) == n
    decreases |dims|
  {
    if dims == [] {
      index := [];
    } else {
      var k := |dims| - 1;
      assert dims == dims[..k] + [dims[k]];
      VolumeSnoc(dims[..k], dims[k]);
      DigitSplit(n, dims[k], Volume(dims[..k]));
      var rest := ColMajorOnto(dims[..k], n % Volume(dims[..k]));
      index := rest + [n / Volume(dims[..k])];
      assert index[..k] == rest;
      ColMajorStep(dims, index);
    }
  }

  // ---- Explicit strides --------------------------------------------------------------------

  /** The farthest offset, accumulated with overflow checks. */
  function CheckedSpan(acc: u64, dims: seq<u64>, strides: seq<u64>): Result<u64>
    requires |dims| == |strides|
    decreases |dims|
  {
    if dims == [] then Ok(acc)
    else
      var step := Mul(SatSub(dims[0], 1), strides[0]);
      if step > U64_MAX || acc + step > U64_MAX then Err(Geometry)
      else CheckedSpan(acc + step, dims[1..], strides[1..])
  }

  predicate ValidLayout(layout: Layout, dims: seq<u64>) {
    layout.Strided? ==>
      && |layout.strides| == |dims|
      && (forall i :: 0 <= i < |dims| ==> layout.strides[i] != 0)
      && CheckedSpan(0, dims, layout.strides).Ok?
  }

  method ValidateLayout(layout: Layout, dims: seq<u64>) returns (ok: bool)
    ensures ok == ValidLayout(layout, dims)
  {
    if !layout.Strided? {
      return true;
    }
    var strides := layout.strides;
    if |strides| != |dims| {
      return false;
    }
    for i := 0 to |dims|
      invariant forall j :: 0 <= j < i ==> strides[j] != 0
    {
      if strides[i] == 0 {
        return false;
      }
    }
    var maxOff: u64 := 0;
    for i := 0 to |dims|
      invariant CheckedSpan(0, dims, strides) == CheckedSpan(maxOff, dims[i..], strides[i..])
    {
      assert dims[i..][1..] == dims[i + 1..] && strides[i..][1..] == strides[i + 1..];
      var span := if dims[i] == 0 then 0 else dims[i] - 1;
      if Mul(span, strides[i]) > U64_MAX || maxOff + Mul(span, strides[i]) > U64_MAX {
        return false;
      }
      maxOff := maxOff + Mul(span, strides[i]);
    }
    return true;
  }

  /** An accepted strided layout keeps the offset of every index, and every partial sum of it, in a machine word. */
  lemma {:induction false} StridedOffsetsFit(acc: u64, dims: seq<u64>, strides: seq<u64>, index: seq<nat>, used: nat)
    requires |dims| == |strides| && CheckedSpan(acc, dims, strides).Ok? && InRange(index, dims) && used <= acc
    ensures used + Offset(index, strides) <= U64_MAX
    ensures dims != [] ==> Mul(index[0], strides[0]) <= U64_MAX && used + Mul(index[0], strides[0]) <= U64_MAX
    decreases |dims|
  {
    if dims != [] {
      MulMonotone(index[0], dims[0] - 1, strides[0]);
      var step := Mul(dims[0] - 1, strides[0]);
      StridedOffsetsFit(acc + step, dims[1..], strides[1..], index[1..], used + Mul(index[0], strides[0]));
    }
  }

  /** The index of the last element, where a dimension of none counts as one. */
  function LastIndex(dims: seq<nat>): (index: seq<nat>)
    ensures |index| == |dims|
  {
    if dims == [] then [] else [if dims[0] == 0 then 0 else dims[0] - 1] + LastIndex(dims[1..])
  }

  /** The span passes the overflow checks if and only if the offset of the last element fits a machine word. */
  lemma {:induction false} SpanFitsIff(acc: u64, dims: seq<u64>, strides: seq<u64>)
    requires |dims| == |strides|
    ensures CheckedSpan(acc, dims, strides).Ok? <==> acc + Offset(LastIndex(dims), strides) <= U64_MAX
    decreases |dims|
  {
    if dims != [] {
      var step := Mul(SatSub(dims[0], 1), strides[0]);
      assert LastIndex(dims)[1..] == LastIndex(dims[1..]);
      if acc + step <= U64_MAX {
        SpanFitsIff(acc + step, dims[1..], strides[1..]);
      }
    }
  }

  lemma {:induction false} LastInRange(dims: seq<nat>)
    requires forall i :: 0 <= i < |dims| ==> dims[i] > 0
    ensures InRange(LastIndex(dims), dims)
  {
    if dims != [] {
      LastInRange(dims[1..]);
    }
  }

  /**
   * A strided layout of a shape that has elements is accepted if and only if there is a stride for each dimension, none
   * is zero, and the offset of every element fits a machine word. Other layouts are accepted as they are.
   */
  lemma LayoutAcceptedIff(layout: Layout, dims: seq<u64>)
    requires forall i :: 0 <= i < |dims| ==> dims[i] > 0
    ensures ValidLayout(layout, dims) <==>
      layout.Strided? ==>
        && |layout.strides| == |dims| && 0 !in layout.strides
        && forall index :: InRange(index, dims) ==> Offset(index, layout.strides) <= U64_MAX
  {
    if layout.Strided? && |layout.strides| == |dims| {
      SpanFitsIff(0, dims, layout.strides);
      LastInRange(dims);
      if ValidLayout(layout, dims) {
        forall index | InRange(index, dims)
          ensures Offset(index, layout.strides) <= U64_MAX
        {
          StridedOffsetsFit(0, dims, layout.strides, index, 0);
        }
      }
    }
  }

  /** Row-major: the last index moves fastest, and a step in any dimension skips the volume of those after it. */
  lemma {:induction false} RowMajorStrideIs(dims: seq<nat>, i: nat)
    requires i < |dims|
    ensures RowMajorStrides(dims)[i] == Volume(dims[i + 1..])
    decreases i
  {
    if i > 0 {
      RowMajorStrideIs(dims[1..], i - 1);
      assert dims[1..][i..] == dims[i + 1..];
    }
  }

  /** Column-major: the first index moves fastest, and a step skips the volume of the dimensions before. */
  lemma {:induction false} ColMajorStrideIs(dims: seq<nat>, i: nat)
    requires i < |dims|
    ensures ColMajorStrides(dims)[i] == Volume(dims[..i])
    decreases |dims|
  {
    var k := |dims| - 1;
    if i < k {
      ColMajorStrideIs(dims[..k], i);
      assert dims[..k][..i] == dims[..i];
    }
  }
}

/** Zero padding on every side of every axis. */
module Pad {
  import opened Arith
  import opened Wrappers
  import opened Shapes
  import opened Odometer
  import opened Broadcast
  import T = Transpose

  /** Padding before and after each axis, two values per axis. */
  function Before(p: seq<int>, rank: nat): (b: seq<int>)
    requires 2 * rank <= |p|
    ensures |b| == rank
  {
    seq(rank, d requires 0 <= d < rank => p[2 * d])
  }

  /** Extents of the output; a negative padding can make one negative. */
  function Extents(shape: Shape, p: seq<int>): (s: seq<int>)
    requires 2 * |shape| <= |p|
    ensures |s| == |shape|
  {
    seq(|shape|, d requires 0 <= d < |shape| => p[2 * d] + shape[d] + p[2 * d + 1])
  }

  predicate Describes(extents: seq<int>) {
    forall d :: 0 <= d < |extents| ==> extents[d] >= 0
  }

  function PaddedShape(shape: Shape, p: seq<nat>): (s: Shape)
    requires 2 * |shape| <= |p|
    ensures |s| == |shape|
  {
    seq(|shape|, d requires 0 <= d < |shape| => p[2 * d] + shape[d] + p[2 * d + 1])
  }

  function Minus(a: seq<int>, b: seq<int>): (c: seq<int>)
    requires |a| == |b|
    ensures |c| == |a|
  {
    seq(|a|, d requires 0 <= d < |a| => a[d] - b[d])
  }

  /** The input position whose value belongs at output position j, if j lies between the margins. */
  function Origin(j: nat, shape: Shape, p: seq<nat>): (o: Option<nat>)
    requires 2 * |shape| <= |p| && j < Count(PaddedShape(shape, p))
    ensures o.Some? ==> o.value < Count(shape)
  {
    var idx := Minus(Unflat(j, PaddedShape(shape, p)), Before(p, |shape|));
    if Within(idx, shape) then FlatInRange(idx, shape); Some(Flat(idx, shape)) else None
  }

  function PaddedAt(x: seq<real>, j: nat, shape: Shape, p: seq<nat>): real
    requires 2 * |shape| <= |p| && |x| == Count(shape) && j < Count(PaddedShape(shape, p))
  {
    match Origin(j, shape, p)
    case Some(i) => x[i]
    case None => 0.0
  }

  /** Where the odometer over the input writes element i. */
  function Target(i: nat, shape: Shape, p: seq<nat>): int
    requires 2 * |shape| <= |p| && i < Count(shape)
  {
    Flat(Plus(Before(p, |shape|), Unflat(i, shape)), PaddedShape(shape, p))
  }

  lemma TargetOrigin(i: nat, shape: Shape, p: seq<nat>)
    requires 2 * |shape| <= |p| && i < Count(shape)
    ensures 0 <= Target(i, shape, p) < Count(PaddedShape(shape, p))
    ensures Origin(Target(i, shape, p), shape, p) == Some(i)
  {
    FlatOf(i, shape);
    ShiftWithin(Unflat(i, shape), shape, p);
    OriginOf(Unflat(i, shape), shape, p);
  }

  lemma ShiftWithin(idx: seq<int>, shape: Shape, p: seq<nat>)
    requires 2 * |shape| <= |p| && Within(idx, shape)
    ensures Within(Plus(Before(p, |shape|), idx), PaddedShape(shape, p))
    ensures Minus(Plus(Before(p, |shape|), idx), Before(p, |shape|)) == idx
  {
  }

  lemma OriginOf(idx: seq<int>, shape: Shape, p: seq<nat>)
    requires 2 * |shape| <= |p| && Within(idx, shape)
    ensures var out, to := PaddedShape(shape, p), Plus(Before(p, |shape|), idx);
            0 <= Flat(to, out) < Count(out) && 0 <= Flat(idx, shape)
                && Origin(Flat(to, out), shape, p) == Some(Flat(idx, shape))
  {
    ShiftWithin(idx, shape, p);
    UnflatOf(Plus(Before(p, |shape|), idx), PaddedShape(shape, p));
    FlatInRange(idx, shape);
  }

  lemma OriginTarget(j: nat, shape: Shape, p: seq<nat>)
    requires 2 * |shape| <= |p| && j < Count(PaddedShape(shape, p)) && Origin(j, shape, p).Some?
    ensures Target(Origin(j, shape, p).value, shape, p) == j
  {
    var out, b := PaddedShape(shape, p), Before(p, |shape|);
    var idx := Minus(Unflat(j, out), b);
    UnflatOf(idx, shape);
    assert Plus(b, idx) == Unflat(j, out);
    FlatOf(j, out);
  }

  // ---------------------------------------------------------------- the kernel

  datatype Outcome = Rejected | NoShape | OutOfRange | Done(y: Tensor)

  /** The walk writes element i at base plus its offset. */
  function WriteAt(i: nat, shape: Shape, os: seq<int>, base: int): int
    requires |os| == |shape| && i < Count(shape)
  {
    base + Offset(i, shape, os)
  }

  /** The last number below n of which something holds. */
  function LastHit(hit: nat -> bool, n: nat): (k: Option<nat>)
    ensures k.Some? ==> k.value < n
  {
    if n == 0 then None else if hit(n - 1) then Some(n - 1) else LastHit(hit, n - 1)
  }

  /** Which elements are written at j. */
  function Hits(j: int, shape: Shape, os: seq<int>, base: int): nat -> bool
    requires |os| == |shape|
  {
    (i: nat) => i < Count(shape) && WriteAt(i, shape, os, base) == j
  }

  /** The last of the first n elements that is written at j. */
  function LastAt(j: int, shape: Shape, os: seq<int>, base: int, n: nat): (k: Option<nat>)
    requires |os| == |shape| && n <= Count(shape)
    ensures k.Some? ==> k.value < n
  {
    LastHit(Hits(j, shape, os, base), n)
  }

  /** A cleared buffer after the first n writes. */
  function Written(x: seq<real>, size: nat, shape: Shape, os: seq<int>, base: int, n: nat): (y: seq<real>)
    requires |os| == |shape| && n <= Count(shape) == |x|
    ensures |y| == size
  {
    seq(size, j requires 0 <= j < size =>
      match LastAt(j, shape, os, base, n)
      case Some(k) => x[k]
      case None => 0.0)
  }

  lemma WriteOne(x: seq<real>, size: nat, shape: Shape, os: seq<int>, base: int, n: nat, yo: nat)
    requires |os| == |shape| && n < Count(shape) == |x| && yo == WriteAt(n, shape, os, base) && yo < size
    ensures Written(x, size, shape, os, base, n)[yo := x[n]] == Written(x, size, shape, os, base, n + 1)
  {
  }

  /** Every write lands in the output. */
  ghost predicate Lands(shape: Shape, os: seq<int>, base: int, size: nat) {
    |os| == |shape| && forall i: nat :: i < Count(shape) ==> 0 <= WriteAt(i, shape, os, base) < size
  }

  /** The first or the last write misses the output. */
  predicate Spills(shape: Shape, p: seq<int>)
    requires 2 * |shape| <= |p| && Describes(Extents(shape, p))
  {
    var out: Shape := Extents(shape, p);
    var os := Contiguous(out);
    var base := Dot(Before(p, |shape|), os);
    Count(shape) > 0 && (base < 0 || base + T.LastOffset(shape, os) >= Count(out))
  }

  /** All writes of a walk with non-negative strides land in the output exactly when the first and the last do. */
  lemma EndsDecide(shape: Shape, os: seq<int>, base: int, size: nat)
    requires |shape| == |os| && forall d :: 0 <= d < |os| ==> 0 <= os[d]
    ensures Lands(shape, os, base, size) <==> Count(shape) == 0 || (0 <= base && base + T.LastOffset(shape, os) < size)
  {
    if Count(shape) > 0 {
      UnflatZero(shape);
      DotOfZeros(os);
      T.LastIsRead(shape, os);
      assert WriteAt(0, shape, os, base) == base;
      assert WriteAt(Count(shape) - 1, shape, os, base) == base + T.LastOffset(shape, os);
      if 0 <= base && base + T.LastOffset(shape, os) < size {
        forall i: nat | i < Count(shape) ensures 0 <= WriteAt(i, shape, os, base) < size {
          T.OffsetBound(i, shape, os);
        }
      }
    }
  }

  /** y is the zeroed output shape after the walk over the input. */
  ghost predicate Copied(x: Tensor, p: seq<int>, y: Tensor)
    requires x.Valid() && 2 * |x.shape| <= |p|
  {
    && Describes(Extents(x.shape, p)) && y.shape == Extents(x.shape, p) && y.Valid()
    && var os := Contiguous(y.shape);
       y.data == Written(x.data, Count(y.shape), x.shape, os, Dot(Before(p, |x.shape|), os), Count(x.shape))
  }

  /**
   Takes paddings of either sign. It writes outside the output exactly when the first or the last
   write does; otherwise each output position holds the last element written there.
   */
  method PadZero(x: Tensor, p: seq<int>) returns (r: Outcome)
    requires x.Valid()
    ensures r.Rejected? <==> |p| < 2 * |x.shape|
    ensures r.NoShape? <==> |p| >= 2 * |x.shape| && !Describes(Extents(x.shape, p))
    ensures r.OutOfRange? <==> |p| >= 2 * |x.shape| && Describes(Extents(x.shape, p)) && Spills(x.shape, p)
    ensures r.Done? ==> Copied(x, p, r.y)
  {
    var rank := |x.shape|;
    if |p| < 2 * rank {
      return Rejected;
    }
    var extents := Extents(x.shape, p);
    if !Describes(extents) {
      return NoShape;
    }
    var shape: Shape := extents;
    var strides := ContiguousStrides(shape);
    var os := strides[..];
    T.ContiguousNonneg(shape);
    EndsDecide(x.shape, os, Dot(Before(p, rank), os), Count(shape));
    var ok, y := Scatter(x.data, Count(shape), x.shape, os, Dot(Before(p, rank), os));
    return if ok then Done(Tensor(shape, y[..])) else OutOfRange;
  }

  /** Writes the elements along the walk, until one does not land. */
  method Scatter(x: seq<real>, size: nat, shape: Shape, os: seq<int>, base: int) returns (ok: bool, y: array<real>)
    requires |os| == |shape| && |x| == Count(shape)
    ensures ok <==> Lands(shape, os, base, size)
    ensures ok ==> y[..] == Written(x, size, shape, os, base, Count(shape))
  {
    y := new real[size](_ => 0.0);
    var idx := new int[|shape|](_ => 0);
    var yo := base;
    assert idx[..] == Zeros(|shape|);
    WalkStart(shape, os, base, idx[..]);
    WrittenNothing(x, size, shape, os, base, y[..]);
    for i := 0 to Count(shape)
      invariant y.Length == size && Walk(i, shape, os, base, idx[..], yo)
      invariant y[..] == Written(x, size, shape, os, base, i)
      invariant forall k: nat :: k < i ==> 0 <= WriteAt(k, shape, os, base) < size
    {
      WalkWrites(i, shape, os, base, idx[..], yo);
      if yo < 0 || yo >= size {
        return false, y;
      }
      PutElement(x, shape, os, base, i, yo, y);
      yo := WalkStep(i, shape, os, base, idx, yo);
    }
    return true, y;
  }

  lemma WrittenNothing(x: seq<real>, size: nat, shape: Shape, os: seq<int>, base: int, ys: seq<real>)
    requires |os| == |shape| && |x| == Count(shape) && |ys| == size && forall j :: 0 <= j < size ==> ys[j] == 0.0
    ensures ys == Written(x, size, shape, os, base, 0)
  {
  }

  lemma WalkWrites(i: nat, shape: Shape, os: seq<int>, base: int, idx: seq<int>, yo: int)
    requires |os| == |shape| && i < Count(shape) && Walk(i, shape, os, base, idx, yo)
    ensures yo == WriteAt(i, shape, os, base)
  {
    WalkAt(i, shape, os, base, idx, yo);
  }

  method PutElement(x: seq<real>, ghost shape: Shape, ghost os: seq<int>, ghost base: int, i: nat, yo: nat,
                    y: array<real>)
    requires |os| == |shape| && i < Count(shape) == |x| && yo == WriteAt(i, shape, os, base) && yo < y.Length
    requires y[..] == Written(x, y.Length, shape, os, base, i)
    modifies y
    ensures y[..] == Written(x, y.Length, shape, os, base, i + 1)
  {
    WriteOne(x, y.Length, shape, os, base, i, yo);
    y[yo] := x[i];
  }

  // ---------------------------------------------------------------- paddings that are not negative

  lemma PaddedExtents(shape: Shape, p: seq<nat>)
    requires 2 * |shape| <= |p|
    ensures Describes(Extents(shape, p)) && Extents(shape, p) == PaddedShape(shape, p)
  {
  }

  lemma WriteIsTarget(i: nat, shape: Shape, p: seq<nat>)
    requires 2 * |shape| <= |p| && i < Count(shape)
    ensures var os := Contiguous(PaddedShape(shape, p));
            WriteAt(i, shape, os, Dot(Before(p, |shape|), os)) == Target(i, shape, p)
  {
    var out := PaddedShape(shape, p);
    DotAdd(Before(p, |shape|), Unflat(i, shape), Contiguous(out));
    DotContiguous(Plus(Before(p, |shape|), Unflat(i, shape)), out);
  }

  lemma OriginIff(j: nat, shape: Shape, p: seq<nat>, i: nat)
    requires 2 * |shape| <= |p| && i < Count(shape) && j < Count(PaddedShape(shape, p))
    ensures Origin(j, shape, p) == Some(i) <==> Target(i, shape, p) == j
  {
    OnlyTarget(shape, p, i, j);
    TargetOrigin(i, shape, p);
  }

  lemma WriteIffOrigin(j: nat, shape: Shape, p: seq<nat>, os: seq<int>, base: int, i: nat)
    requires 2 * |shape| <= |p| && i < Count(shape) && j < Count(PaddedShape(shape, p))
    requires os == Contiguous(PaddedShape(shape, p)) && base == Dot(Before(p, |shape|), os)
    ensures WriteAt(i, shape, os, base) == j <==> Origin(j, shape, p) == Some(i)
  {
    WriteIsTarget(i, shape, p);
    OriginIff(j, shape, p, i);
  }

  function Reached(o: Option<nat>, n: nat): Option<nat> {
    if o.Some? && o.value < n then o else None
  }

  lemma {:induction false} LastIsReached(hit: nat -> bool, o: Option<nat>, n: nat)
    requires forall i: nat {:trigger hit(i)} :: i < n ==> (hit(i) <==> o == Some(i))
    ensures LastHit(hit, n) == Reached(o, n)
  {
    if n > 0 {
      LastIsReached(hit, o, n - 1);
      ReachedNext(o, n - 1);
    }
  }

  lemma LastIsOrigin(j: nat, shape: Shape, p: seq<nat>, os: seq<int>, base: int, n: nat)
    requires 2 * |shape| <= |p| && n <= Count(shape) && j < Count(PaddedShape(shape, p))
    requires os == Contiguous(PaddedShape(shape, p)) && base == Dot(Before(p, |shape|), os)
    ensures LastAt(j, shape, os, base, n) == Reached(Origin(j, shape, p), n)
  {
    var hit := Hits(j, shape, os, base);
    forall i: nat | i < n ensures hit(i) <==> Origin(j, shape, p) == Some(i) {
      WriteIffOrigin(j, shape, p, os, base, i);
    }
    LastIsReached(hit, Origin(j, shape, p), n);
  }

  lemma ReachedNext(o: Option<nat>, n: nat)
    ensures Reached(o, n + 1) == if o == Some(n) then Some(n) else Reached(o, n)
  {
  }

  /**
   Without negative paddings nothing is refused for its shape or spills, and the output is the input
   between zero margins.
   */
  lemma PaddingMargins(x: Tensor, p: seq<nat>)
    requires x.Valid() && 2 * |x.shape| <= |p|
    ensures Describes(Extents(x.shape, p)) && !Spills(x.shape, p)
    ensures forall y :: Copied(x, p, y) ==>
      && y.shape == PaddedShape(x.shape, p) && y.Valid()
      && forall j: nat :: j < |y.data| ==> y.data[j] == PaddedAt(x.data, j, x.shape, p)
  {
    var shape := PaddedShape(x.shape, p);
    var os := Contiguous(shape);
    var base := Dot(Before(p, |x.shape|), os);
    PaddedExtents(x.shape, p);
    T.ContiguousNonneg(shape);
    EndsDecide(x.shape, os, base, Count(shape));
    forall i: nat | i < Count(x.shape) ensures 0 <= WriteAt(i, x.shape, os, base) < Count(shape) {
      WriteIsTarget(i, x.shape, p);
      TargetOrigin(i, x.shape, p);
    }
    forall y, j: nat | Copied(x, p, y) && j < |y.data| ensures y.data[j] == PaddedAt(x.data, j, x.shape, p) {
      LastIsOrigin(j, x.shape, p, os, base, Count(x.shape));
    }
  }

  /** Element i belongs at its target and nowhere else. */
  lemma OnlyTarget(shape: Shape, p: seq<nat>, i: nat, j: nat)
    requires 2 * |shape| <= |p| && i < Count(shape) && j < Count(PaddedShape(shape, p))
    ensures Origin(j, shape, p) == Some(i) ==> j == Target(i, shape, p)
  {
    if Origin(j, shape, p) == Some(i) {
      OriginTarget(j, shape, p);
    }
  }

  /** A negative padding can spill: one position cut from the only axis, on either side. */
  lemma NegativeSpills(n: nat)
    requires n >= 2
    ensures Spills([n], [-1, 0]) && Spills([n], [0, -1])
  {
    assert Extents([n], [-1, 0]) == [n - 1] && Extents([n], [0, -1]) == [n - 1];
    assert Before([-1, 0], 1) == [-1] && Before([0, -1], 1) == [0];
    OneAxis(n - 1);
    OneAxis(n);
    assert T.LastIndex([n]) == [n - 1];
    DotOne(-1);
    DotOne(0);
    DotOne(n - 1);
  }

  lemma OneAxis(n: nat)
    ensures Contiguous([n]) == [1] && Count([n]) == n
  {
    assert Front([n]) == [];
  }

  lemma DotOne(v: int)
    ensures Dot([v], [1]) == v
  {
    assert Front([v]) == [] && Front([1]) == [];
  }
}

/** Reordering the axes of a tensor. */
module Transpose {
  import opened Arith
  import opened Shapes
  import opened Odometer
  import opened Broadcast

  datatype Outcome = Rejected | OutOfRange | Done(y: Tensor)

  predicate AxesOk(p: seq<int>, rank: nat) {
    |p| == rank && forall i :: 0 <= i < rank ==> 0 <= FromEnd(p[i], rank) < rank
  }

  /** The value of s at each axis named by perm. */
  function Pick<T>(s: seq<T>, perm: seq<nat>): (r: seq<T>)
    requires forall i :: 0 <= i < |perm| ==> perm[i] < |s|
    ensures |r| == |perm|
  {
    seq(|perm|, i requires 0 <= i < |perm| => s[perm[i]])
  }

  ghost predicate InAxes(perm: seq<nat>, rank: nat) {
    |perm| == rank && forall i :: 0 <= i < |perm| ==> perm[i] < rank
  }

  /** Offset of the last element the walk reads. */
  function LastOffset(shape: Shape, strides: seq<int>): int
    requires |shape| == |strides|
  {
    Dot(LastIndex(shape), strides)
  }

  function LastIndex(shape: Shape): (idx: seq<int>)
    ensures |idx| == |shape|
  {
    seq(|shape|, d requires 0 <= d < |shape| => (shape[d] as int) - 1)
  }

  /** y holds, at each of its positions, the element of x at the permuted strides. */
  ghost predicate Permutes(x: Tensor, perm: seq<nat>, y: Tensor)
    requires x.Valid() && InAxes(perm, |x.shape|)
  {
    && y.Valid() && y.shape == Pick(x.shape, perm)
    && InRange(y.shape, Pick(Contiguous(x.shape), perm), |x.data|)
    && forall i: nat :: i < Count(y.shape) ==> y.data[i] == x.data[Offset(i, y.shape, Pick(Contiguous(x.shape), perm))]
  }

  lemma {:induction false} DotMono(a: seq<int>, b: seq<int>, s: seq<int>)
    requires |a| == |b| == |s|
    requires forall d :: 0 <= d < |a| ==> a[d] <= b[d] && 0 <= s[d]
    ensures Dot(a, s) <= Dot(b, s)
  {
    if a != [] {
      DotMono(Front(a), Front(b), Front(s));
      MulMono(Last(a), Last(b), Last(s));
    }
  }

  lemma {:induction false} LastIsLast(shape: Shape)
    requires Count(shape) > 0
    ensures Within(LastIndex(shape), shape) && Flat(LastIndex(shape), shape) == Count(shape) - 1
  {
    if shape != [] {
      CountPositive(shape);
      LastIsLast(Front(shape));
      assert LastIndex(shape) == LastIndex(Front(shape)) + [Last(shape) - 1];
      FlatSnoc(LastIndex(Front(shape)), Last(shape) - 1, shape);
      MulDist(Count(Front(shape)), 1, Last(shape));
    }
  }

  /** All reads of a walk with non-negative strides are in range exactly when the last one is. */
  lemma LastDecides(shape: Shape, strides: seq<int>, size: nat)
    requires |shape| == |strides| && forall d :: 0 <= d < |strides| ==> 0 <= strides[d]
    ensures InRange(shape, strides, size) <==> Count(shape) == 0 || LastOffset(shape, strides) < size
  {
    if Count(shape) > 0 {
      LastIsRead(shape, strides);
      if LastOffset(shape, strides) < size {
        BoundedReads(shape, strides, size);
      }
    }
  }

  lemma LastIsRead(shape: Shape, strides: seq<int>)
    requires |shape| == |strides| && Count(shape) > 0
    ensures Offset(Count(shape) - 1, shape, strides) == LastOffset(shape, strides)
  {
    LastIsLast(shape);
    UnflatOf(LastIndex(shape), shape);
  }

  lemma BoundedReads(shape: Shape, strides: seq<int>, size: nat)
    requires |shape| == |strides| && forall d :: 0 <= d < |strides| ==> 0 <= strides[d]
    requires LastOffset(shape, strides) < size
    ensures InRange(shape, strides, size)
  {
    forall i: nat | i < Count(shape) ensures 0 <= Offset(i, shape, strides) < size {
      OffsetBound(i, shape, strides);
    }
  }

  lemma OffsetBound(i: nat, shape: Shape, strides: seq<int>)
    requires |shape| == |strides| && forall d :: 0 <= d < |strides| ==> 0 <= strides[d]
    requires i < Count(shape)
    ensures 0 <= Offset(i, shape, strides) <= LastOffset(shape, strides)
  {
    FlatOf(i, shape);
    DotMono(Unflat(i, shape), LastIndex(shape), strides);
    DotOfZeros(strides);
    DotMono(Zeros(|strides|), Unflat(i, shape), strides);
  }

  lemma {:induction false} ContiguousNonneg(shape: Shape)
    ensures forall d :: 0 <= d < |shape| ==> 0 <= Contiguous(shape)[d]
  {
    if shape != [] {
      ContiguousNonneg(Front(shape));
      forall d | 0 <= d < |shape| - 1 ensures 0 <= Contiguous(shape)[d] {
        MulNonneg(Contiguous(Front(shape))[d], Last(shape));
      }
    }
  }

  function AxesOf(p: seq<int>, rank: nat): (perm: seq<nat>)
    requires AxesOk(p, rank)
    ensures InAxes(perm, rank)
  {
    seq(|p|, i requires 0 <= i < |p| => FromEnd(p[i], rank) as nat)
  }

  /** The last element the walk over the picked axes reads is not there. */
  predicate Leaves(shape: Shape, p: seq<int>)
    requires AxesOk(p, |shape|)
  {
    var perm := AxesOf(p, |shape|);
    Count(Pick(shape, perm)) > 0 && LastOffset(Pick(shape, perm), Pick(Contiguous(shape), perm)) >= Count(shape)
  }

  /**
   The kernel checks that each axis exists but not that each is named once. It reads outside its
   input exactly when the largest offset is out of range.
   */
  method Transpose(x: Tensor, p: seq<int>) returns (r: Outcome)
    requires x.Valid()
    ensures r.Rejected? <==> !AxesOk(p, |x.shape|)
    ensures r.OutOfRange? <==> AxesOk(p, |x.shape|) && Leaves(x.shape, p)
    ensures r.Done? ==> Permutes(x, AxesOf(p, |x.shape|), r.y)
  {
    var rank := |x.shape|;
    if |p| != rank {
      return Rejected;
    }
    var perm: seq<nat> := [];
    for i := 0 to rank
      invariant |perm| == i
      invariant forall k :: 0 <= k < i ==> 0 <= FromEnd(p[k], rank) < rank && perm[k] == FromEnd(p[k], rank)
    {
      var d := FromEnd(p[i], rank);
      if d < 0 || d >= rank {
        return Rejected;
      }
      perm := perm + [d];
    }
    assert perm == AxesOf(p, rank);
    var shape := Pick(x.shape, perm);
    var xs := ContiguousStrides(x.shape);
    var ps := Pick(xs[..], perm);
    ContiguousNonneg(x.shape);
    LastDecides(shape, ps, |x.data|);
    var ok, data := Collect(x.data, shape, ps);
    if ok {
      return Done(Tensor(shape, data[..]));
    }
    return OutOfRange;
  }

  /** Copies the elements a walk reads, until one is missing. */
  method Collect(x: seq<real>, shape: Shape, strides: seq<int>) returns (ok: bool, y: array<real>)
    requires |strides| == |shape|
    ensures ok <==> InRange(shape, strides, |x|)
    ensures y.Length == Count(shape)
    ensures ok ==> forall i: nat :: i < Count(shape) ==> y[i] == x[Offset(i, shape, strides)]
  {
    y := new real[Count(shape)];
    var idx := new int[|shape|](_ => 0);
    var xo := 0;
    assert idx[..] == Zeros(|shape|);
    WalkStart(shape, strides, 0, idx[..]);
    for i := 0 to Count(shape)
      invariant Walk(i, shape, strides, 0, idx[..], xo)
      invariant forall k: nat :: k < i ==> 0 <= Offset(k, shape, strides) < |x| && y[k] == x[Offset(k, shape, strides)]
    {
      WalkAt(i, shape, strides, 0, idx[..], xo);
      if xo < 0 || xo >= |x| {
        return false, y;
      }
      y[i] := x[xo];
      xo := WalkStep(i, shape, strides, 0, idx, xo);
    }
    return true, y;
  }

  // ---------------------------------------------------------------- permutations

  ghost predicate Inverse(perm: seq<nat>, inv: seq<nat>) {
    && InAxes(perm, |perm|) && InAxes(inv, |perm|)
    && (forall k :: 0 <= k < |perm| ==> inv[perm[k]] == k)
    && (forall d :: 0 <= d < |perm| ==> perm[inv[d]] == d)
  }

  /** Entries of idx moved to the axes perm names, for the first k of them. */
  function Scatter(idx: seq<int>, perm: seq<nat>, k: nat): (s: seq<int>)
    requires |idx| == |perm| && k <= |perm| && forall i :: 0 <= i < |perm| ==> perm[i] < |perm|
    ensures |s| == |perm|
  {
    if k == 0 then Zeros(|perm|) else Scatter(idx, perm, k - 1)[perm[k - 1] := idx[k - 1]]
  }

  lemma {:induction false} ScatterAt(idx: seq<int>, perm: seq<nat>, inv: seq<nat>, k: nat, d: nat)
    requires |idx| == |perm| && k <= |perm| && Inverse(perm, inv) && d < |perm|
    ensures Scatter(idx, perm, k)[d] == if inv[d] < k then idx[inv[d]] else 0
  {
    if k > 0 {
      ScatterAt(idx, perm, inv, k - 1, d);
    }
  }

  lemma {:induction false} DotScatter(idx: seq<int>, perm: seq<nat>, inv: seq<nat>, s: seq<int>, k: nat)
    requires |idx| == |perm| == |s| && k <= |perm| && Inverse(perm, inv)
    ensures Dot(Scatter(idx, perm, k), s) == Dot(idx[..k], Pick(s, perm)[..k])
  {
    if k == 0 {
      DotOfZeros(s);
    } else {
      DotScatter(idx, perm, inv, s, k - 1);
      ScatterAt(idx, perm, inv, k - 1, perm[k - 1]);
      DotUpdate(Scatter(idx, perm, k - 1), s, perm[k - 1], idx[k - 1]);
      DotTake(idx, Pick(s, perm), k);
    }
  }

  lemma DotTake(a: seq<int>, b: seq<int>, k: nat)
    requires |a| == |b| && 0 < k <= |a|
    ensures Dot(a[..k], b[..k]) == Dot(a[..k - 1], b[..k - 1]) + a[k - 1] * b[k - 1]
  {
    assert Front(a[..k]) == a[..k - 1] && Front(b[..k]) == b[..k - 1];
  }

  /** Walking a permuted shape reads the element at the permuted-back multi-index. */
  lemma PermutedOffset(idx: seq<int>, shape: Shape, perm: seq<nat>, inv: seq<nat>)
    requires |shape| == |perm| == |idx| && Inverse(perm, inv)
    ensures Dot(idx, Pick(Contiguous(shape), perm)) == Flat(Pick(idx, inv), shape)
  {
    var s := Scatter(idx, perm, |perm|);
    forall d | 0 <= d < |perm| ensures s[d] == Pick(idx, inv)[d] {
      ScatterAt(idx, perm, inv, |perm|, d);
    }
    assert s == Pick(idx, inv);
    DotScatter(idx, perm, inv, Contiguous(shape), |perm|);
    assert idx[..|perm|] == idx && Pick(Contiguous(shape), perm)[..|perm|] == Pick(Contiguous(shape), perm);
    DotContiguous(s, shape);
  }

  lemma PickWithin(idx: seq<int>, shape: Shape, perm: seq<nat>, inv: seq<nat>)
    requires |shape| == |perm| && Inverse(perm, inv) && Within(idx, Pick(shape, perm))
    ensures Within(Pick(idx, inv), shape)
    ensures Pick(Pick(idx, inv), perm) == idx
  {
    forall d | 0 <= d < |shape| ensures 0 <= Pick(idx, inv)[d] < shape[d] {
      assert Pick(shape, perm)[inv[d]] == shape[d];
    }
  }

  /** A permutation of the axes never reads outside the input. */
  lemma PermutationInRange(x: Tensor, perm: seq<nat>, inv: seq<nat>)
    requires x.Valid() && |perm| == |x.shape| && Inverse(perm, inv)
    ensures InRange(Pick(x.shape, perm), Pick(Contiguous(x.shape), perm), |x.data|)
  {
    var shape := Pick(x.shape, perm);
    forall i: nat | i < Count(shape)
      ensures 0 <= Offset(i, shape, Pick(Contiguous(x.shape), perm)) < |x.data|
    {
      FlatOf(i, shape);
      PermutedOffset(Unflat(i, shape), x.shape, perm, inv);
      PickWithin(Unflat(i, shape), x.shape, perm, inv);
      FlatInRange(Pick(Unflat(i, shape), inv), x.shape);
    }
  }

  /** Element by element: the transpose at a multi-index is the input at the permuted-back one. */
  lemma PermutesAt(x: Tensor, perm: seq<nat>, inv: seq<nat>, y: Tensor, idx: seq<int>)
    requires x.Valid() && |perm| == |x.shape| && Inverse(perm, inv) && Permutes(x, perm, y)
    requires Within(idx, y.shape)
    ensures Within(Pick(idx, inv), x.shape)
    ensures 0 <= Flat(idx, y.shape) < |y.data| && 0 <= Flat(Pick(idx, inv), x.shape) < |x.data|
    ensures y.data[Flat(idx, y.shape)] == x.data[Flat(Pick(idx, inv), x.shape)]
  {
    UnflatOf(idx, y.shape);
    PermutedOffset(idx, x.shape, perm, inv);
    PickWithin(idx, x.shape, perm, inv);
    FlatInRange(Pick(idx, inv), x.shape);
    assert Offset(Flat(idx, y.shape), y.shape, Pick(Contiguous(x.shape), perm)) == Flat(Pick(idx, inv), x.shape);
  }

  /** Transposing by a permutation and then by its inverse gives the input back. */
  lemma TransposeBack(x: Tensor, perm: seq<nat>, inv: seq<nat>, y: Tensor, z: Tensor)
    requires x.Valid() && |perm| == |x.shape| && Inverse(perm, inv)
    requires Permutes(x, perm, y) && Permutes(y, inv, z)
    ensures z == x
  {
    assert z.shape == x.shape;
    forall i | 0 <= i < |x.data| ensures z.data[i] == x.data[i] {
      FlatOf(i, x.shape);
      BackAt(x, perm, inv, y, z, Unflat(i, x.shape));
    }
  }

  lemma BackAt(x: Tensor, perm: seq<nat>, inv: seq<nat>, y: Tensor, z: Tensor, idx: seq<int>)
    requires x.Valid() && |perm| == |x.shape| && Inverse(perm, inv)
    requires Permutes(x, perm, y) && Permutes(y, inv, z) && z.shape == x.shape
    requires Within(idx, x.shape)
    ensures 0 <= Flat(idx, x.shape) < |x.data| && z.data[Flat(idx, x.shape)] == x.data[Flat(idx, x.shape)]
  {
    PermutesAt(y, inv, perm, z, idx);
    PermutesAt(x, perm, inv, y, Pick(idx, perm));
    assert Pick(Pick(idx, perm), inv) == idx;
  }

  /**
   Naming one of two axes twice, which the kernel accepts: with the first axis it reads outside an input of
   at least two rows, and with the second one outside a single row of at least two values, but in neither case
   outside any other input that has elements. Empty inputs are left as soon as there is anything to write.
   */
  lemma RepeatedAxisLeavesIff(n: nat, m: nat)
    ensures AxesOk([0, 0], 2) && AxesOk([1, 1], 2)
    ensures Leaves([n, m], [0, 0]) <==> n >= 2 || (n == 1 && m == 0)
    ensures Leaves([n, m], [1, 1]) <==> m >= 1 && (n == 0 || (n == 1 && m >= 2))
  {
    TwoAxes(n, m);
    assert AxesOf([0, 0], 2) == [0, 0] && AxesOf([1, 1], 2) == [1, 1];
    assert Pick([n, m], [0, 0]) == [n, n] && Pick([n, m], [1, 1]) == [m, m];
    assert Pick([m as int, 1], [0, 0]) == [m, m] && Pick([m as int, 1], [1, 1]) == [1, 1];
    LastOfSquare(n, m);
    LastOfSquare(m, 1);
    FirstTwice(n, m);
    SecondTwice(n, m);
  }

  lemma LastOfSquare(n: nat, stride: int)
    ensures LastOffset([n, n], [stride, stride]) == 2 * ((n - 1) * stride)
    ensures Count([n, n]) > 0 <==> n > 0
  {
    var idx: seq<int> := [n - 1, n - 1];
    assert LastIndex([n, n]) == idx;
    assert Front(idx) == [n - 1] && Front([stride, stride]) == [stride];
    assert Dot([n - 1], [stride]) == (n - 1) * stride by {
      assert Front([n - 1]) == [] && Front([stride]) == [];
    }
    CountAllPositive([n, n]);
    if Count([n, n]) > 0 {
      assert [n, n][0] > 0;
    }
  }

  lemma FirstTwice(n: nat, m: nat)
    ensures n > 0 && 2 * ((n - 1) * m) >= n * m <==> n >= 2 || (n == 1 && m == 0)
  {
    if n >= 2 {
      MulMono(n, 2 * (n - 1), m);
      MulDist(n - 1, n - 1, m);
    }
  }

  lemma SecondTwice(n: nat, m: nat)
    ensures m > 0 && 2 * ((m - 1) * 1) >= n * m <==> m >= 1 && (n == 0 || (n == 1 && m >= 2))
  {
    if n >= 2 {
      MulMono(2, n, m);
    }
  }

  lemma TwoAxes(n: nat, m: nat)
    ensures Contiguous([n, m]) == [m, 1] && Count([n, m]) == n * m
  {
    assert Front([n, m]) == [n] && Front([n]) == [];
    assert Contiguous([n]) == [1];
    assert Scale([1], m) == [m];
    assert Count([n]) == n;
  }
}

/** Broadcasting two tensors to a common shape and combining them element by element. */
module Broadcast {
  import opened Arith
  import opened Wrappers
  import opened Shapes
  import opened Odometer

  // ---------------------------------------------------------------- shapes

  /** Size of axis i of a shape right-aligned to a rank; missing leading axes have size 1. */
  function AxisAt(s: Shape, rank: nat, i: nat): nat
    requires |s| <= rank && i < rank
  {
    if i < rank - |s| then 1 else s[i - (rank - |s|)]
  }

  function Max(a: nat, b: nat): nat {
    if a >= b then a else b
  }

  /** The axes agree, or one of them is 1. */
  predicate AxesMatch(a: Shape, b: Shape, i: nat)
    requires i < Max(|a|, |b|)
  {
    var da, db := AxisAt(a, Max(|a|, |b|), i), AxisAt(b, Max(|a|, |b|), i);
    da == db || da == 1 || db == 1
  }

  function CommonAxis(a: Shape, b: Shape, i: nat): nat
    requires i < Max(|a|, |b|)
  {
    var da, db := AxisAt(a, Max(|a|, |b|), i), AxisAt(b, Max(|a|, |b|), i);
    if da == 1 then db else da
  }

  predicate Compatible(a: Shape, b: Shape) {
    forall i :: 0 <= i < Max(|a|, |b|) ==> AxesMatch(a, b, i)
  }

  /** The common shape, when every pair of axes agrees or has a 1. */
  function Common(a: Shape, b: Shape): Option<Shape> {
    if Compatible(a, b) then
      Some(seq(Max(|a|, |b|), i requires 0 <= i < Max(|a|, |b|) => CommonAxis(a, b, i)))
    else None
  }

  method BroadcastShape(a: Shape, b: Shape) returns (r: Option<Shape>)
    ensures r == Common(a, b)
  {
    var rank := Max(|a|, |b|);
    var out: Shape := [];
    for i := 0 to rank
      invariant |out| == i
      invariant forall k :: 0 <= k < i ==> AxesMatch(a, b, k) && out[k] == CommonAxis(a, b, k)
    {
      var da, db := 1, 1;
      if |a| - rank + i >= 0 {
        da := a[|a| - rank + i];
      }
      if |b| - rank + i >= 0 {
        db := b[|b| - rank + i];
      }
      assert da == AxisAt(a, rank, i) && db == AxisAt(b, rank, i);
      if da == db || db == 1 {
        out := out + [da];
      } else if da == 1 {
        out := out + [db];
      } else {
        assert !AxesMatch(a, b, i);
        return None;
      }
    }
    assert Compatible(a, b);
    assert out == Common(a, b).value;
    return Some(out);
  }

  /** src stretches to out: right-aligned, each of its axes is 1 or has the size of out's. */
  predicate StretchesTo(src: Shape, out: Shape) {
    |src| <= |out| && forall d :: 0 <= d < |src| ==> src[d] == 1 || src[d] == out[|out| - |src| + d]
  }

  /** Both operands stretch to the common shape, and it does not depend on their order. */
  lemma CommonStretches(a: Shape, b: Shape)
    requires Common(a, b).Some?
    ensures StretchesTo(a, Common(a, b).value) && StretchesTo(b, Common(a, b).value)
    ensures Common(b, a) == Common(a, b)
  {
    LeftStretches(a, b);
    CommonSymmetric(a, b);
    LeftStretches(b, a);
  }

  lemma LeftStretches(a: Shape, b: Shape)
    requires Common(a, b).Some?
    ensures StretchesTo(a, Common(a, b).value)
  {
    var rank, out := Max(|a|, |b|), Common(a, b).value;
    forall d | 0 <= d < |a| ensures a[d] == 1 || a[d] == out[|out| - |a| + d] {
      var i := rank - |a| + d;
      assert AxesMatch(a, b, i) && out[i] == CommonAxis(a, b, i);
    }
  }

  lemma CommonSymmetric(a: Shape, b: Shape)
    requires Common(a, b).Some?
    ensures Common(b, a) == Common(a, b)
  {
    var rank := Max(|a|, |b|);
    assert Max(|b|, |a|) == rank;
    forall i | 0 <= i < rank ensures AxesMatch(b, a, i) && CommonAxis(b, a, i) == CommonAxis(a, b, i) {
      assert AxesMatch(a, b, i);
    }
    assert Compatible(b, a);
    assert Common(b, a).value == Common(a, b).value;
  }

  // ---------------------------------------------------------------- strides

  /** The source multi-index behind an output multi-index: stretched axes stay at 0. */
  function Project(idx: seq<int>, src: Shape): (p: seq<int>)
    requires |src| <= |idx|
    ensures |p| == |src|
  {
    seq(|src|, d requires 0 <= d < |src| => if src[d] == 1 then 0 else idx[|idx| - |src| + d])
  }

  /** Source strides per output axis; a stretched axis gets 0. */
  function StridesOf(src: Shape, rank: nat): (s: seq<int>)
    requires |src| <= rank
    ensures |s| == rank
  {
    if src == [] then Zeros(rank)
    else Scale(StridesOf(Front(src), rank - 1), Last(src)) + [if Last(src) == 1 then 0 else 1]
  }

  /** Walking with these strides reaches exactly the projected source element. */
  lemma {:induction false} StridesProject(idx: seq<int>, src: Shape)
    requires |src| <= |idx|
    ensures Dot(idx, StridesOf(src, |idx|)) == Flat(Project(idx, src), src)
  {
    if src == [] {
      DotZeros(idx);
    } else {
      StridesProject(Front(idx), Front(src));
      LastAxis(idx, src, if Last(src) == 1 then 0 else 1);
    }
  }

  lemma LastAxis(idx: seq<int>, src: Shape, b: int)
    requires src != [] && |src| <= |idx| && b == if Last(src) == 1 then 0 else 1
    ensures Dot(idx, StridesOf(src, |idx|))
      == Dot(Front(idx), StridesOf(Front(src), |idx| - 1)) * Last(src) + Last(idx) * b
    ensures Flat(Project(idx, src), src)
      == Flat(Project(Front(idx), Front(src)), Front(src)) * Last(src) + Last(idx) * b
  {
    LastStride(idx, StridesOf(Front(src), |idx| - 1), Last(src), b);
    ProjectSnoc(idx, src, Last(idx) * b);
    FlatSnoc(Project(Front(idx), Front(src)), Last(idx) * b, src);
  }

  lemma LastStride(idx: seq<int>, s: seq<int>, l: int, b: int)
    requires |idx| == |s| + 1
    ensures Dot(idx, Scale(s, l) + [b]) == Dot(Front(idx), s) * l + Last(idx) * b
  {
    DotSnoc(idx, Scale(s, l), b);
    DotScale(Front(idx), s, l);
  }

  lemma ProjectSnoc(idx: seq<int>, src: Shape, v: int)
    requires src != [] && |src| <= |idx| && v == if Last(src) == 1 then 0 else Last(idx)
    ensures Project(idx, src) == Project(Front(idx), Front(src)) + [v]
  {
  }

  lemma ProjectWithin(idx: seq<int>, src: Shape, out: Shape)
    requires StretchesTo(src, out) && Within(idx, out)
    ensures Within(Project(idx, src), src)
  {
  }

  method Strides(src: Shape, out: Shape) returns (s: array<int>)
    requires |src| <= |out|
    ensures fresh(s) && s[..] == StridesOf(src, |out|)
  {
    var rank := |out|;
    s := new int[rank](_ => 0);
    var stride := 1;
    ghost var tail: seq<int> := [];
    StridesStart(src, rank);
    for i := 0 to |src|
      invariant forall k :: 0 <= k < rank - i ==> s[k] == 0
      invariant s[rank - i..] == tail
      invariant Pending(src, rank, i, stride, tail)
    {
      var d, o := |src| - 1 - i, rank - 1 - i;
      StridesProgress(src, rank, i, stride, tail);
      if src[d] != 1 {
        s[o] := stride;
      }
      tail := [if src[d] == 1 then 0 else stride] + tail;
      stride := stride * src[d];
    }
    StridesEnd(src, rank, stride, tail);
    assert s[..rank - |src|] == Zeros(rank - |src|);
    assert s[..] == s[..rank - |src|] + s[rank - |src|..];
  }

  /** The last i axes are filled in; the axes before them await the running stride. */
  ghost predicate Pending(src: Shape, rank: nat, i: nat, stride: int, tail: seq<int>) {
    && i <= |src| <= rank
    && StridesOf(src, rank) == Scale(StridesOf(src[..|src| - i], rank - i), stride) + tail
  }

  lemma StridesStart(src: Shape, rank: nat)
    requires |src| <= rank
    ensures Pending(src, rank, 0, 1, [])
  {
    ScaleOne(StridesOf(src, rank));
    assert src[..|src|] == src;
  }

  lemma StridesEnd(src: Shape, rank: nat, stride: int, tail: seq<int>)
    requires Pending(src, rank, |src|, stride, tail)
    ensures StridesOf(src, rank) == Zeros(rank - |src|) + tail
  {
    ScaleZeros(rank - |src|, stride);
    assert src[..0] == [];
  }

  lemma StridesProgress(src: Shape, rank: nat, i: nat, stride: int, done: seq<int>)
    requires i < |src| && Pending(src, rank, i, stride, done)
    ensures var d := |src| - 1 - i;
      Pending(src, rank, i + 1, stride * src[d], [if src[d] == 1 then 0 else stride] + done)
  {
    var d := |src| - 1 - i;
    var part := src[..|src| - i];
    assert Front(part) == src[..d] && Last(part) == src[d];
    StridesSnoc(part, rank - i, stride);
  }

  lemma StridesSnoc(src: Shape, rank: nat, stride: int)
    requires src != [] && |src| <= rank
    ensures Scale(StridesOf(src, rank), stride)
         == Scale(StridesOf(Front(src), rank - 1), stride * Last(src)) + [if Last(src) == 1 then 0 else stride]
  {
    var s, b := StridesOf(Front(src), rank - 1), if Last(src) == 1 then 0 else 1;
    ScaleSnoc(Scale(s, Last(src)), b, stride);
    ScaleScale(s, Last(src), stride);
  }

  lemma ScaleZeros(n: nat, k: int)
    ensures Scale(Zeros(n), k) == Zeros(n)
  {
  }

  // ---------------------------------------------------------------- element-wise kernels

  datatype Tensor = Tensor(shape: Shape, data: seq<real>)
  {
    predicate Valid() {
      |data| == Count(shape)
    }
  }

  /** Where output position i reads a source that stretches to the output shape. */
  function SourceAt(i: nat, src: Shape, out: Shape): (s: nat)
    requires StretchesTo(src, out) && i < Count(out)
    ensures s < Count(src)
  {
    FlatOf(i, out);
    ProjectWithin(Unflat(i, out), src, out);
    FlatInRange(Project(Unflat(i, out), src), src);
    Flat(Project(Unflat(i, out), src), src)
  }

  /** Every output element combines the two source elements behind it. */
  ghost predicate Combines(f: (real, real) -> real, a: Tensor, b: Tensor, y: Tensor)
    requires a.Valid() && b.Valid()
  {
    && Common(a.shape, b.shape) == Some(y.shape) && y.Valid()
    && StretchesTo(a.shape, y.shape) && StretchesTo(b.shape, y.shape)
    && forall i :: 0 <= i < |y.data| ==> y.data[i] == ElementAt(f, a, b, y.shape, i)
  }

  lemma {:induction false} CountStretch(src: Shape, out: Shape)
    requires StretchesTo(src, out) && Count(out) > 0
    ensures 0 < Count(src) <= Count(out)
  {
    if out != [] {
      CountPositive(out);
      if src == [] {
        MulMono(1, Count(Front(out)), Last(out));
      } else {
        FrontStretches(src, out);
        CountStretch(Front(src), Front(out));
        MulMono(1, Count(Front(src)), Last(src));
        MulMono(Count(Front(src)), Count(Front(out)), Last(src));
        ProductMono(Count(Front(out)), Last(src), Last(out));
      }
    }
  }

  lemma FrontStretches(src: Shape, out: Shape)
    requires StretchesTo(src, out) && src != []
    ensures StretchesTo(Front(src), Front(out))
    ensures Last(src) == 1 || Last(src) == Last(out)
  {
    forall d | 0 <= d < |src| - 1 ensures Front(src)[d] == 1 || Front(src)[d] == Front(out)[|out| - |src| + d] {
      assert Front(src)[d] == src[d];
    }
  }

  lemma ProductMono(c: nat, a: nat, b: nat)
    requires a <= b
    ensures c * a <= c * b
  {
  }

  /**
   A source with as many elements as the output is read at the output position itself, so the
   path without strides and the strided path compute the same.
   */
  lemma {:induction false} SameCountIsIdentity(idx: seq<int>, src: Shape, out: Shape)
    requires StretchesTo(src, out) && Count(out) > 0 && Count(src) == Count(out)
    requires Within(idx, out)
    ensures Flat(Project(idx, src), src) == Flat(idx, out)
  {
    if out != [] {
      CountPositive(out);
      if src == [] {
        AllOnes(idx, out);
      } else {
        FrontStretches(src, out);
        CountStretch(Front(src), Front(out));
        SameFactors(Count(Front(src)), Last(src), Count(Front(out)), Last(out));
        SameCountIsIdentity(Front(idx), Front(src), Front(out));
        var v := if Last(src) == 1 then 0 else Last(idx);
        ProjectSnoc(idx, src, v);
        FlatSnoc(Project(Front(idx), Front(src)), v, src);
      }
    }
  }

  lemma {:induction false} AllOnes(idx: seq<int>, out: Shape)
    requires Count(out) == 1 && Within(idx, out)
    ensures Flat(idx, out) == 0
  {
    FlatInRange(idx, out);
  }

  lemma SameFactors(c: nat, l: nat, c': nat, l': nat)
    requires 0 < c <= c' && l' > 0 && (l == 1 || l == l') && c * l == c' * l'
    ensures c == c' && l == l'
  {
    if l < l' {
      ProductMono(c', 2, l');
    } else if c < c' {
      MulMono(c + 1, c', l);
      MulDist(c, 1, l);
    }
  }

  method Elementwise(f: (real, real) -> real, a: Tensor, b: Tensor) returns (r: Option<Tensor>)
    requires a.Valid() && b.Valid()
    ensures r.Some? <==> Compatible(a.shape, b.shape)
    ensures r.Some? ==> Combines(f, a, b, r.value)
  {
    var common := BroadcastShape(a.shape, b.shape);
    if common.None? {
      return None;
    }
    var shape := common.value;
    CommonStretches(a.shape, b.shape);
    var n := Count(shape);
    var y;
    if Count(a.shape) == n && Count(b.shape) == n {
      y := CombineInOrder(f, a, b, shape);
    } else {
      var aStrides := Strides(a.shape, shape);
      var bStrides := Strides(b.shape, shape);
      StretchInRange(a.shape, shape);
      StretchInRange(b.shape, shape);
      y := CombineStrided(f, a.data, b.data, shape, aStrides[..], bStrides[..]);
    }
    return Some(Tensor(shape, y[..]));
  }

  function ElementAt(f: (real, real) -> real, a: Tensor, b: Tensor, shape: Shape, i: nat): real
    requires a.Valid() && b.Valid() && StretchesTo(a.shape, shape) && StretchesTo(b.shape, shape) && i < Count(shape)
  {
    f(a.data[SourceAt(i, a.shape, shape)], b.data[SourceAt(i, b.shape, shape)])
  }

  method CombineInOrder(f: (real, real) -> real, a: Tensor, b: Tensor, shape: Shape) returns (y: array<real>)
    requires a.Valid() && b.Valid() && StretchesTo(a.shape, shape) && StretchesTo(b.shape, shape)
    requires Count(a.shape) == Count(shape) && Count(b.shape) == Count(shape)
    ensures fresh(y) && y.Length == Count(shape)
    ensures forall i :: 0 <= i < y.Length ==> y[i] == ElementAt(f, a, b, shape, i)
  {
    y := new real[Count(shape)];
    for i := 0 to Count(shape)
      invariant forall k :: 0 <= k < i ==> y[k] == ElementAt(f, a, b, shape, k)
    {
      FastSource(i, a.shape, shape);
      FastSource(i, b.shape, shape);
      y[i] := f(a.data[i], b.data[i]);
    }
  }

  /** Every strided read stays inside its source. */
  ghost predicate InRange(shape: Shape, strides: seq<int>, size: nat) {
    |strides| == |shape| && forall i: nat :: i < Count(shape) ==> 0 <= Offset(i, shape, strides) < size
  }

  method CombineStrided(f: (real, real) -> real, a: seq<real>, b: seq<real>, shape: Shape,
                        aStrides: seq<int>, bStrides: seq<int>) returns (y: array<real>)
    requires InRange(shape, aStrides, |a|) && InRange(shape, bStrides, |b|)
    ensures fresh(y) && y.Length == Count(shape)
    ensures forall i: nat :: i < Count(shape) ==>
      y[i] == f(a[Offset(i, shape, aStrides)], b[Offset(i, shape, bStrides)])
  {
    y := new real[Count(shape)];
    var idx := new int[|shape|](_ => 0);
    var ao, bo := 0, 0;
    assert idx[..] == Zeros(|shape|);
    WalkStart(shape, aStrides, 0, idx[..]);
    WalkStart(shape, bStrides, 0, idx[..]);
    for i := 0 to Count(shape)
      invariant Walk(i, shape, aStrides, 0, idx[..], ao) && Walk(i, shape, bStrides, 0, idx[..], bo)
      invariant forall k: nat :: k < i ==> y[k] == f(a[Offset(k, shape, aStrides)], b[Offset(k, shape, bStrides)])
    {
      WalkAt(i, shape, aStrides, 0, idx[..], ao);
      WalkAt(i, shape, bStrides, 0, idx[..], bo);
      y[i] := f(a[ao], b[bo]);
      ao, bo := WalkBoth(i, shape, aStrides, bStrides, idx, ao, bo);
    }
  }

  method WalkBoth(ghost i: nat, shape: Shape, aStrides: seq<int>, bStrides: seq<int>, idx: array<int>, ao0: int,
      bo0: int)
    returns (ao: int, bo: int)
    requires i < Count(shape)
    requires Walk(i, shape, aStrides, 0, idx[..], ao0) && Walk(i, shape, bStrides, 0, idx[..], bo0)
    modifies idx
    ensures Walk(i + 1, shape, aStrides, 0, idx[..], ao) && Walk(i + 1, shape, bStrides, 0, idx[..], bo)
  {
    ghost var before := idx[..];
    WalkAt(i, shape, aStrides, 0, before, ao0);
    ao, bo := Step(idx, shape, aStrides, bStrides, ao0, bo0);
    WalkNext(i, shape, aStrides, 0, before, ao0, idx[..], ao);
    WalkNext(i, shape, bStrides, 0, before, bo0, idx[..], bo);
  }

  /** Strides of a stretched source reach exactly the source elements behind the output. */
  lemma StretchInRange(src: Shape, out: Shape)
    requires StretchesTo(src, out)
    ensures InRange(out, StridesOf(src, |out|), Count(src))
    ensures forall i: nat :: i < Count(out) ==> Offset(i, out, StridesOf(src, |out|)) == SourceAt(i, src, out)
  {
    forall i: nat | i < Count(out)
      ensures Offset(i, out, StridesOf(src, |out|)) == SourceAt(i, src, out)
    {
      StridesProject(Unflat(i, out), src);
    }
  }

  lemma FastSource(i: nat, src: Shape, out: Shape)
    requires StretchesTo(src, out) && i < Count(out) && Count(src) == Count(out)
    ensures SourceAt(i, src, out) == i
  {
    FlatOf(i, out);
    SameCountIsIdentity(Unflat(i, out), src, out);
  }
}

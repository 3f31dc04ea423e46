/** Reductions: folding a tensor along chosen axes. */
module Reduce {
  import opened Arith
  import opened Wrappers
  import opened Shapes
  import opened Odometer
  import opened Broadcast

  /** Axis d is reduced when it is named, or when no axis is. */
  predicate Reduced(names: seq<int>, rank: nat, d: nat) {
    names == [] || exists k :: 0 <= k < |names| && FromEnd(names[k], rank) == d
  }

  /** Shape of the output: a reduced axis disappears, or stays with size one. */
  function KeptShape(shape: Shape, axes: seq<bool>, keep: bool): Shape
    requires |shape| == |axes|
  {
    if shape == [] then [] else
      KeptShape(Front(shape), Front(axes), keep)
      + (if !Last(axes) then [Last(shape)] else if keep then [1] else [])
  }

  /** The coordinates of an element along the axes that are not reduced. */
  function KeptIndex(idx: seq<int>, axes: seq<bool>, keep: bool): seq<int>
    requires |idx| == |axes|
  {
    if idx == [] then [] else
      KeptIndex(Front(idx), Front(axes), keep)
      + (if !Last(axes) then [Last(idx)] else if keep then [0] else [])
  }

  /** Output strides indexed by input axis; reduced axes contribute nothing. */
  function KeepStrides(shape: Shape, axes: seq<bool>): (s: seq<int>)
    requires |shape| == |axes|
    ensures |s| == |shape|
  {
    if shape == [] then []
    else if Last(axes) then KeepStrides(Front(shape), Front(axes)) + [0]
    else Scale(KeepStrides(Front(shape), Front(axes)), Last(shape)) + [1]
  }

  /** Number of input elements behind each output element. */
  function Group(shape: Shape, axes: seq<bool>): nat
    requires |shape| == |axes|
  {
    if shape == [] then 1
    else if Last(axes) then
      MulNonneg(Group(Front(shape), Front(axes)), Last(shape));
      Group(Front(shape), Front(axes)) * Last(shape)
    else Group(Front(shape), Front(axes))
  }

  /** Output position of an input position: the digits of the kept axes, read as one number. */
  function Target(i: nat, shape: Shape, axes: seq<bool>): nat
    requires |shape| == |axes| && i < Count(shape)
    decreases |shape|
  {
    if shape == [] then 0 else
      LastDigit(i, shape);
      var t := Target(i / Last(shape), Front(shape), Front(axes));
      MulNonneg(t, Last(shape));
      if Last(axes) then t else t * Last(shape) + i % Last(shape)
  }

  lemma AppendNone<T>(s: seq<T>)
    ensures s + [] == s
  {
  }

  /** With or without the kept unit axes, the target is the position of the kept coordinates, and exists. */
  lemma {:induction false} TargetKept(i: nat, shape: Shape, axes: seq<bool>, keep: bool)
    requires |shape| == |axes| && i < Count(shape)
    ensures Within(KeptIndex(Unflat(i, shape), axes, keep), KeptShape(shape, axes, keep))
    ensures Flat(KeptIndex(Unflat(i, shape), axes, keep), KeptShape(shape, axes, keep)) == Target(i, shape, axes)
    decreases |shape|
  {
    if shape != [] {
      LastDigit(i, shape);
      TargetKept(i / Last(shape), Front(shape), Front(axes), keep);
      var k, s := KeptIndex(Unflat(i / Last(shape), Front(shape)), Front(axes), keep),
          KeptShape(Front(shape), Front(axes), keep);
      KeptSnoc(i, shape, axes, keep);
      if Last(axes) {
        AppendNone(k);
        AppendNone(s);
        AppendAxis(k, 0, s, 1);
      } else {
        AppendAxis(k, i % Last(shape), s, Last(shape));
      }
    }
  }

  lemma KeptSnoc(i: nat, shape: Shape, axes: seq<bool>, keep: bool)
    requires |shape| == |axes| && i < Count(shape) && shape != []
    ensures 0 <= i / Last(shape) < Count(Front(shape))
    ensures KeptIndex(Unflat(i, shape), axes, keep)
         == KeptIndex(Unflat(i / Last(shape), Front(shape)), Front(axes), keep)
          + if !Last(axes) then [i % Last(shape)] else if keep then [0] else []
  {
    LastDigit(i, shape);
  }

  lemma AppendAxis(k: seq<int>, r: int, s: Shape, n: nat)
    requires Within(k, s) && 0 <= r < n
    ensures Within(k + [r], s + [n]) && Flat(k + [r], s + [n]) == Flat(k, s) * n + r
  {
    FlatAppend(k, r, s, n);
    assert forall d :: 0 <= d < |s| ==> (s + [n])[d] == s[d];
  }

  /** Walking the input with the output strides stands at the target. */
  lemma {:induction false} WalkTarget(i: nat, shape: Shape, axes: seq<bool>)
    requires |shape| == |axes| && i < Count(shape)
    ensures Offset(i, shape, KeepStrides(shape, axes)) == Target(i, shape, axes)
    decreases |shape|
  {
    if shape != [] {
      LastDigit(i, shape);
      var q, r := i / Last(shape), i % Last(shape);
      WalkTarget(q, Front(shape), Front(axes));
      var s := KeepStrides(Front(shape), Front(axes));
      if Last(axes) {
        DotSnoc(Unflat(i, shape), s, 0);
      } else {
        DotSnoc(Unflat(i, shape), Scale(s, Last(shape)), 1);
        DotScale(Unflat(q, Front(shape)), s, Last(shape));
      }
    }
  }

  // ---------------------------------------------------------------- which elements meet

  /** The first n input positions that fold into output o, in order. */
  function Members(shape: Shape, axes: seq<bool>, o: nat, n: nat): seq<nat>
    requires |shape| == |axes| && n <= Count(shape)
  {
    if n == 0 then []
    else Members(shape, axes, o, n - 1) + if Target(n - 1, shape, axes) == o then [n - 1] else []
  }

  /** They are the positions below n with that target, each once and in increasing order. */
  lemma {:induction false} MembersAre(shape: Shape, axes: seq<bool>, o: nat, n: nat)
    requires |shape| == |axes| && n <= Count(shape)
    ensures forall i: nat :: i in Members(shape, axes, o, n) <==> i < n && Target(i, shape, axes) == o
    ensures forall j, k :: 0 <= j < k < |Members(shape, axes, o, n)| ==>
              Members(shape, axes, o, n)[j] < Members(shape, axes, o, n)[k]
  {
    if n > 0 {
      MembersAre(shape, axes, o, n - 1);
      var m := Members(shape, axes, o, n - 1);
      assert forall j :: 0 <= j < |m| ==> m[j] in m;
    }
  }

  /** Members met in the first q blocks of the last axis and r elements of the next block. */
  lemma {:induction false} BlockCount(shape: Shape, axes: seq<bool>, o: nat, q: nat, r: nat, at: nat)
    requires |shape| == |axes| && shape != [] && q < Count(Front(shape)) && r <= Last(shape)
    requires at == BlockAt(q, Last(shape)) && at + r <= Count(shape)
    ensures |Members(shape, axes, o, at + r)| == |Members(shape, axes, o, at)| + BlockHits(shape, axes, o, q, r)
    decreases r
  {
    if r > 0 {
      BlockCount(shape, axes, o, q, r - 1, at);
      RadixSplit(q, r - 1, Last(shape));
      TargetInBlock(shape, axes, o, q, r - 1, at + (r - 1));
    }
  }

  function BlockAt(q: nat, n: nat): nat {
    MulNonneg(q, n);
    q * n
  }

  function BlockHits(shape: Shape, axes: seq<bool>, o: nat, q: nat, r: nat): nat
    requires |shape| == |axes| && shape != [] && q < Count(Front(shape)) && r <= Last(shape)
  {
    var t := Target(q, Front(shape), Front(axes));
    if Last(axes) then (if t == o then r else 0)
    else if Last(shape) > 0 && t == o / Last(shape) && o % Last(shape) < r then 1 else 0
  }

  lemma TargetInBlock(shape: Shape, axes: seq<bool>, o: nat, q: nat, r: nat, i: nat)
    requires |shape| == |axes| && shape != [] && q < Count(Front(shape)) && r < Last(shape)
    requires i < Count(shape) && i / Last(shape) == q && i % Last(shape) == r
    ensures Target(i, shape, axes) == o <==> BlockHits(shape, axes, o, q, r + 1) == BlockHits(shape, axes, o, q, r) + 1
    ensures Target(i, shape, axes) != o <==> BlockHits(shape, axes, o, q, r + 1) == BlockHits(shape, axes, o, q, r)
  {
    var t := Target(q, Front(shape), Front(axes));
    if !Last(axes) {
      SameDigits(t, r, Last(shape), o, Target(i, shape, axes));
    }
  }

  lemma SameDigits(t: nat, r: nat, n: nat, o: nat, i: int)
    requires r < n && i == t * n + r
    ensures i == o <==> t == o / n && r == o % n
  {
    RadixSplit(t, r, n);
    CellPosition(o, o + 1, n) by {
      MulMono(1, n, o + 1);
    }
  }

  /** The output, one axis shorter, that output o lies in. */
  function Outer(o: nat, shape: Shape, axes: seq<bool>): nat
    requires |shape| == |axes| && shape != [] && Last(shape) > 0
  {
    if Last(axes) then o else RemainderSmall(o, Last(shape)); o / Last(shape)
  }

  /** Whole blocks of the last axis multiply the members of the shape without it, or repeat them. */
  lemma {:induction false} MembersByBlock(shape: Shape, axes: seq<bool>, o: nat, q: nat)
    requires |shape| == |axes| && shape != [] && q <= Count(Front(shape)) && Last(shape) > 0
    requires BlockAt(q, Last(shape)) <= Count(shape)
    ensures var sub := Members(Front(shape), Front(axes), Outer(o, shape, axes), q);
            |Members(shape, axes, o, BlockAt(q, Last(shape)))| == if Last(axes) then BlockAt(|sub|, Last(shape))
                else |sub|
    decreases q
  {
    if q > 0 {
      var n := Last(shape);
      NextBlock(q - 1, n);
      MembersByBlock(shape, axes, o, q - 1);
      BlockCount(shape, axes, o, q - 1, n, BlockAt(q - 1, n));
      NextBlock(|Members(Front(shape), Front(axes), Outer(o, shape, axes), q - 1)|, n);
      RemainderSmall(o, n);
    }
  }

  lemma NextBlock(q: nat, n: nat)
    ensures BlockAt(q + 1, n) == BlockAt(q, n) + n
  {
    MulDist(q, 1, n);
  }

  lemma RemainderSmall(o: nat, n: nat)
    requires n > 0
    ensures 0 <= o / n && o % n < n
  {
  }

  /** Every output element gathers exactly as many inputs as the reduced axes multiply to. */
  lemma {:induction false} MembersCount(shape: Shape, axes: seq<bool>, o: nat)
    requires |shape| == |axes| && o < Count(KeptShape(shape, axes, false))
    ensures |Members(shape, axes, o, Count(shape))| == Group(shape, axes)
    decreases |shape|
  {
    if shape == [] {
      assert Members(shape, axes, o, 0) == [];
      assert Target(0, shape, axes) == 0;
    } else {
      var f, a, n := Front(shape), Front(axes), Last(shape);
      if n == 0 {
        NoMembers(shape, axes, o);
      } else {
        OuterTarget(shape, axes, o);
        MembersCount(f, a, Outer(o, shape, axes));
        MembersByBlock(shape, axes, o, Count(f));
      }
    }
  }

  lemma NoMembers(shape: Shape, axes: seq<bool>, o: nat)
    requires |shape| == |axes| && shape != [] && Last(shape) == 0 && o < Count(KeptShape(shape, axes, false))
    ensures Count(shape) == 0 && Group(shape, axes) == 0
  {
    if !Last(axes) {
      CountAppend(KeptShape(Front(shape), Front(axes), false), Last(shape));
    }
  }

  lemma OuterTarget(shape: Shape, axes: seq<bool>, o: nat)
    requires |shape| == |axes| && shape != [] && Last(shape) > 0 && o < Count(KeptShape(shape, axes, false))
    ensures Outer(o, shape, axes) < Count(KeptShape(Front(shape), Front(axes), false))
  {
    var s := KeptShape(Front(shape), Front(axes), false);
    RemainderSmall(o, Last(shape));
    if Last(axes) {
      AppendNone(s);
    } else {
      CountAppend(s, Last(shape));
      QuotientBound(o, Count(s), Last(shape), Count(s + [Last(shape)]));
    }
  }

  lemma QuotientBound(o: nat, c: nat, n: nat, total: int)
    requires n > 0 && total == c * n && o < total
    ensures 0 <= o / n < c
  {
    CellPosition(o, c, n);
  }

  /** Keeping unit axes does not change how many outputs there are. */
  lemma {:induction false} KeepSameCount(shape: Shape, axes: seq<bool>)
    requires |shape| == |axes|
    ensures Count(KeptShape(shape, axes, true)) == Count(KeptShape(shape, axes, false))
  {
    if shape != [] {
      KeepSameCount(Front(shape), Front(axes));
      var s, t := KeptShape(Front(shape), Front(axes), true), KeptShape(Front(shape), Front(axes), false);
      AppendNone(t);
      CountAppend(s, 1);
      CountAppend(s, Last(shape));
      CountAppend(t, Last(shape));
    }
  }

  // ---------------------------------------------------------------- folding

  function Fold(f: (real, real) -> real, init: real, vs: seq<real>): real {
    if vs == [] then init else f(Fold(f, init, Front(vs)), Last(vs))
  }

  function ValuesAt(x: seq<real>, at: seq<nat>): (v: seq<real>)
    ensures |v| == |at|
  {
    seq(|at|, k requires 0 <= k < |at| => if at[k] < |x| then x[at[k]] else 0.0)
  }

  /** Output o after the first n inputs. */
  function Gathered(f: (real, real) -> real, init: real, x: Tensor, axes: seq<bool>, o: nat, n: nat): real
    requires x.Valid() && |axes| == |x.shape| && n <= |x.data|
  {
    Fold(f, init, ValuesAt(x.data, Members(x.shape, axes, o, n)))
  }

  lemma GatheredNext(f: (real, real) -> real, init: real, x: Tensor, axes: seq<bool>, o: nat, n: nat)
    requires x.Valid() && |axes| == |x.shape| && n < |x.data|
    ensures Gathered(f, init, x, axes, o, n + 1) ==
      if Target(n, x.shape, axes) == o then f(Gathered(f, init, x, axes, o, n), x.data[n])
        else Gathered(f, init, x, axes, o, n)
  {
    var m := Members(x.shape, axes, o, n);
    if Target(n, x.shape, axes) == o {
      assert Front(ValuesAt(x.data, m + [n])) == ValuesAt(x.data, m);
    } else {
      AppendNone(m);
    }
  }

  /** Every output holds the fold of its first n inputs. */
  ghost predicate FoldedTo(f: (real, real) -> real, init: real, x: Tensor, axes: seq<bool>, ys: seq<real>, n: nat) {
    && x.Valid() && |axes| == |x.shape| && n <= |x.data|
    && forall o: nat {:trigger ys[o]} :: o < |ys| ==> ys[o] == Gathered(f, init, x, axes, o, n)
  }

  lemma FoldNothing(f: (real, real) -> real, init: real, x: Tensor, axes: seq<bool>, ys: seq<real>)
    requires x.Valid() && |axes| == |x.shape|
    requires forall o :: 0 <= o < |ys| ==> ys[o] == init
    ensures FoldedTo(f, init, x, axes, ys, 0)
  {
  }

  lemma FoldNext(f: (real, real) -> real, init: real, x: Tensor, axes: seq<bool>, ys: seq<real>, n: nat)
    requires n < |x.data| && FoldedTo(f, init, x, axes, ys, n) && Target(n, x.shape, axes) < |ys|
    ensures var t := Target(n, x.shape, axes);
            FoldedTo(f, init, x, axes, ys[t := f(ys[t], x.data[n])], n + 1)
  {
    var t := Target(n, x.shape, axes);
    var ys' := ys[t := f(ys[t], x.data[n])];
    forall o: nat | o < |ys| ensures ys'[o] == Gathered(f, init, x, axes, o, n + 1) {
      GatheredNext(f, init, x, axes, o, n);
    }
  }

  // ---------------------------------------------------------------- the kernels

  method Axes(names: seq<int>, rank: nat) returns (r: Option<seq<bool>>)
    ensures r.None? <==> exists k :: 0 <= k < |names| && !(0 <= FromEnd(names[k], rank) < rank)
    ensures r.Some? ==> |r.value| == rank && forall d: nat :: d < rank ==> (r.value[d] <==> Reduced(names, rank, d))
  {
    if names == [] {
      return Some(seq(rank, _ => true));
    }
    var axes := seq(rank, _ => false);
    for k := 0 to |names|
      invariant |axes| == rank
      invariant forall j :: 0 <= j < k ==> 0 <= FromEnd(names[j], rank) < rank
      invariant forall d: nat :: d < rank ==> (axes[d] <==> exists j :: 0 <= j < k && FromEnd(names[j], rank) == d)
    {
      var d := FromEnd(names[k], rank);
      if d < 0 || d >= rank {
        return None;
      }
      axes := axes[d := true];
    }
    return Some(axes);
  }

  method ReducedShape(shape: Shape, axes: seq<bool>, keep: bool) returns (s: Shape)
    requires |shape| == |axes|
    ensures s == KeptShape(shape, axes, keep)
  {
    s := [];
    for d := 0 to |shape|
      invariant s == KeptShape(shape[..d], axes[..d], keep)
    {
      assert Front(shape[..d + 1]) == shape[..d] && Front(axes[..d + 1]) == axes[..d];
      if !axes[d] {
        s := s + [shape[d]];
      } else if keep {
        s := s + [1];
      }
    }
    assert shape[..|shape|] == shape && axes[..|axes|] == axes;
  }

  method OutputStrides(shape: Shape, axes: seq<bool>) returns (os: array<int>)
    requires |shape| == |axes|
    ensures fresh(os) && os[..] == KeepStrides(shape, axes)
  {
    os := new int[|shape|](_ => 0);
    var stride := 1;
    var d := |shape|;
    ghost var tail: seq<int> := [];
    StridesStart(shape, axes);
    while d > 0
      invariant 0 <= d <= |shape| == os.Length
      invariant forall k :: 0 <= k < d ==> os[k] == 0
      invariant os[d..] == tail && StridesPending(shape, axes, d, stride, tail)
    {
      d := d - 1;
      StridesStep(shape, axes, d, stride, tail);
      if !axes[d] {
        os[d] := stride;
        stride := stride * shape[d];
      }
      tail := [os[d]] + tail;
    }
    assert KeepStrides(shape[..0], axes[..0]) == [];
    assert os[..] == tail;
  }

  ghost predicate StridesPending(shape: Shape, axes: seq<bool>, d: nat, stride: int, tail: seq<int>) {
    && |shape| == |axes| && d <= |shape|
    && KeepStrides(shape, axes) == Scale(KeepStrides(shape[..d], axes[..d]), stride) + tail
  }

  lemma StridesStart(shape: Shape, axes: seq<bool>)
    requires |shape| == |axes|
    ensures StridesPending(shape, axes, |shape|, 1, [])
  {
    ScaleOne(KeepStrides(shape, axes));
    assert shape[..|shape|] == shape && axes[..|shape|] == axes;
  }

  lemma StridesStep(shape: Shape, axes: seq<bool>, d: nat, stride: int, tail: seq<int>)
    requires d < |shape| && StridesPending(shape, axes, d + 1, stride, tail)
    ensures StridesPending(shape, axes, d, if axes[d] then stride else stride * shape[d],
                           [if axes[d] then 0 else stride] + tail)
  {
    var s, a := shape[..d + 1], axes[..d + 1];
    assert Front(s) == shape[..d] && Front(a) == axes[..d];
    var k := KeepStrides(Front(s), Front(a));
    if axes[d] {
      ScaleSnoc(k, 0, stride);
    } else {
      ScaleSnoc(Scale(k, shape[d]), 1, stride);
      ScaleScale(k, shape[d], stride);
    }
  }

  /** Each output is the in-order fold of the inputs that share its kept coordinates. */
  method ReduceOp(f: (real, real) -> real, init: real, x: Tensor, names: seq<int>, keep: bool)
    returns (r: Option<Tensor>, axes: seq<bool>)
    requires x.Valid()
    ensures r.None? <==> exists k :: 0 <= k < |names| && !(0 <= FromEnd(names[k], |x.shape|) < |x.shape|)
    ensures r.Some? ==> |axes| == |x.shape| && forall d: nat :: d < |axes| ==> (axes[d] <==> Reduced(names, |axes|, d))
    ensures r.Some? ==> IsReduction(f, init, x, axes, keep, r.value)
  {
    var found := Axes(names, |x.shape|);
    if found.None? {
      return None, [];
    }
    axes := found.value;
    var shape := ReducedShape(x.shape, found.value, keep);
    var os := OutputStrides(x.shape, found.value);
    var y := FoldInOrder(f, init, x, found.value, os[..], Count(shape), keep);
    r := Some(Tensor(shape, y[..]));
  }

  ghost predicate IsReduction(f: (real, real) -> real, init: real, x: Tensor, axes: seq<bool>, keep: bool, y: Tensor) {
    && x.Valid() && |axes| == |x.shape|
    && y.shape == KeptShape(x.shape, axes, keep) && y.Valid()
    && FoldedTo(f, init, x, axes, y.data, |x.data|)
  }

  method FoldInOrder(f: (real, real) -> real, init: real, x: Tensor, ghost axes: seq<bool>, os: seq<int>, size: nat,
      ghost keep: bool)
    returns (y: array<real>)
    requires x.Valid() && |axes| == |x.shape| && os == KeepStrides(x.shape, axes)
    requires size == Count(KeptShape(x.shape, axes, keep))
    ensures y.Length == size && FoldedTo(f, init, x, axes, y[..], |x.data|)
  {
    y := new real[size](_ => init);
    var idx := new int[|x.shape|](_ => 0);
    var yo := 0;
    assert idx[..] == Zeros(|x.shape|);
    WalkStart(x.shape, os, 0, idx[..]);
    FoldNothing(f, init, x, axes, y[..]);
    for i := 0 to Count(x.shape)
      invariant y.Length == size && Walk(i, x.shape, os, 0, idx[..], yo)
      invariant FoldedTo(f, init, x, axes, y[..], i)
    {
      WalkToTarget(i, x.shape, axes, keep, os, idx[..], yo);
      FoldOne(f, init, x, axes, y, i, yo);
      yo := WalkStep(i, x.shape, os, 0, idx, yo);
    }
  }

  lemma WalkToTarget(i: nat, shape: Shape, axes: seq<bool>, keep: bool, os: seq<int>, idx: seq<int>, yo: int)
    requires i < Count(shape) && |axes| == |shape| && os == KeepStrides(shape, axes)
    requires Walk(i, shape, os, 0, idx, yo)
    ensures yo == Target(i, shape, axes) < Count(KeptShape(shape, axes, keep))
  {
    WalkAt(i, shape, os, 0, idx, yo);
    WalkTarget(i, shape, axes);
    TargetInRange(i, shape, axes, keep);
  }

  method FoldOne(f: (real, real) -> real, ghost init: real, x: Tensor, ghost axes: seq<bool>, y: array<real>, n: nat,
      t: int)
    requires n < |x.data| && FoldedTo(f, init, x, axes, y[..], n) && t == Target(n, x.shape, axes) < y.Length
    modifies y
    ensures FoldedTo(f, init, x, axes, y[..], n + 1)
  {
    FoldNext(f, init, x, axes, y[..], n);
    y[t] := f(y[t], x.data[n]);
  }

  lemma TargetInRange(i: nat, shape: Shape, axes: seq<bool>, keep: bool)
    requires |shape| == |axes| && i < Count(shape)
    ensures Target(i, shape, axes) < Count(KeptShape(shape, axes, keep))
  {
    TargetKept(i, shape, axes, keep);
    FlatInRange(KeptIndex(Unflat(i, shape), axes, keep), KeptShape(shape, axes, keep));
  }

  // ---------------------------------------------------------------- sums

  function Sum(vs: seq<real>): real {
    if vs == [] then 0.0 else Sum(Front(vs)) + Last(vs)
  }

  function Add(a: real, b: real): real {
    a + b
  }

  lemma {:induction false} SumUpdate(vs: seq<real>, t: nat, v: real)
    requires t < |vs|
    ensures Sum(vs[t := vs[t] + v]) == Sum(vs) + v
  {
    var ws := vs[t := vs[t] + v];
    if t == |vs| - 1 {
      assert Front(ws) == Front(vs);
    } else {
      SumUpdate(Front(vs), t, v);
      assert Front(ws) == Front(vs)[t := vs[t] + v];
    }
  }

  lemma {:induction false} SumOfZeros(vs: seq<real>)
    requires forall k :: 0 <= k < |vs| ==> vs[k] == 0.0
    ensures Sum(vs) == 0.0
  {
    if vs != [] {
      SumOfZeros(Front(vs));
    }
  }

  function Partial(x: Tensor, axes: seq<bool>, size: nat, n: nat): (ys: seq<real>)
    requires x.Valid() && |axes| == |x.shape| && n <= |x.data|
    ensures |ys| == size
  {
    seq(size, o requires 0 <= o < size => Gathered(Add, 0.0, x, axes, o, n))
  }

  lemma {:induction false} PartialSum(x: Tensor, axes: seq<bool>, keep: bool, n: nat)
    requires x.Valid() && |axes| == |x.shape| && n <= |x.data|
    ensures Sum(Partial(x, axes, Count(KeptShape(x.shape, axes, keep)), n)) == Sum(x.data[..n])
  {
    var size := Count(KeptShape(x.shape, axes, keep));
    if n == 0 {
      SumOfZeros(Partial(x, axes, size, 0));
    } else {
      PartialSum(x, axes, keep, n - 1);
      TargetInRange(n - 1, x.shape, axes, keep);
      PartialStep(x, axes, size, n - 1);
      assert Front(x.data[..n]) == x.data[..n - 1];
    }
  }

  lemma PartialStep(x: Tensor, axes: seq<bool>, size: nat, n: nat)
    requires x.Valid() && |axes| == |x.shape| && n < |x.data| && Target(n, x.shape, axes) < size
    ensures Sum(Partial(x, axes, size, n + 1)) == Sum(Partial(x, axes, size, n)) + x.data[n]
  {
    PartialNext(x, axes, size, n);
    SumUpdate(Partial(x, axes, size, n), Target(n, x.shape, axes), x.data[n]);
  }

  lemma PartialNext(x: Tensor, axes: seq<bool>, size: nat, n: nat)
    requires x.Valid() && |axes| == |x.shape| && n < |x.data| && Target(n, x.shape, axes) < size
    ensures var ys, t := Partial(x, axes, size, n), Target(n, x.shape, axes);
            Partial(x, axes, size, n + 1) == ys[t := ys[t] + x.data[n]]
  {
    forall o: nat | o < size ensures Partial(x, axes, size, n + 1)[o] ==
      if o == Target(n, x.shape, axes) then Partial(x, axes, size, n)[o] + x.data[n] else Partial(x, axes, size, n)[o]
    {
      GatheredNext(Add, 0.0, x, axes, o, n);
    }
  }

  /** Summing along any axes conserves the total. */
  lemma SumConserved(x: Tensor, axes: seq<bool>, keep: bool, y: Tensor)
    requires IsReduction(Add, 0.0, x, axes, keep, y)
    ensures Sum(y.data) == Sum(x.data)
  {
    PartialSum(x, axes, keep, |x.data|);
    assert y.data == Partial(x, axes, |y.data|, |x.data|);
    assert x.data[..|x.data|] == x.data;
  }

  method GroupSize(shape: Shape, axes: seq<bool>) returns (n: nat)
    requires |shape| == |axes|
    ensures n == Group(shape, axes)
  {
    n := 1;
    for d := 0 to |axes|
      invariant n == Group(shape[..d], axes[..d])
    {
      assert Front(shape[..d + 1]) == shape[..d] && Front(axes[..d + 1]) == axes[..d];
      if axes[d] {
        MulNonneg(n, shape[d]);
        n := n * shape[d];
      }
    }
    assert shape[..|shape|] == shape && axes[..|axes|] == axes;
  }

  /** v is the average of exactly the inputs that share the kept coordinates of output o. */
  ghost predicate IsAverage(x: Tensor, axes: seq<bool>, o: nat, v: real) {
    && x.Valid() && |axes| == |x.shape|
    && var m := Members(x.shape, axes, o, |x.data|);
       Averages(v, |m|, Fold(Add, 0.0, ValuesAt(x.data, m)))
  }

  ghost predicate Averages(v: real, n: nat, total: real) {
    n > 0 && v * n as real == total
  }

  lemma MeanIsAverage(x: Tensor, axes: seq<bool>, keep: bool, sums: Tensor, o: nat, mean: real)
    requires IsReduction(Add, 0.0, x, axes, keep, sums) && o < |sums.data| && Group(x.shape, axes) > 0
    requires mean == Scaled(sums.data[o], Group(x.shape, axes))
    ensures IsAverage(x, axes, o, mean)
  {
    KeepSameCount(x.shape, axes);
    MembersCount(x.shape, axes, o);
    Cancel(sums.data[o], Group(x.shape, axes));
  }

  function Scaled(s: real, n: nat): real
    requires n > 0
  {
    s * (1.0 / n as real)
  }

  lemma Cancel(s: real, n: nat)
    requires n > 0
    ensures Averages(Scaled(s, n), n, s)
  {
    var inv := 1.0 / n as real;
    assert inv * n as real == 1.0;
    assert s * (inv * n as real) == (s * inv) * n as real;
  }

  /** The mean: the sums times the inverse of the group size, which must not be zero for any output. */
  method Mean(x: Tensor, names: seq<int>, keep: bool) returns (r: Option<Tensor>, axes: seq<bool>)
    requires x.Valid()
    ensures r.Some? ==> |axes| == |x.shape| && forall d: nat :: d < |axes| ==> (axes[d] <==> Reduced(names, |axes|, d))
    ensures r.Some? ==>
      && r.value.Valid() && r.value.shape == KeptShape(x.shape, axes, keep)
      && forall o: nat {:trigger r.value.data[o]} :: o < |r.value.data| ==> IsAverage(x, axes, o, r.value.data[o])
    ensures r.None? && (forall k :: 0 <= k < |names| ==> 0 <= FromEnd(names[k], |x.shape|) < |x.shape|) ==>
      |axes| == |x.shape| && Group(x.shape, axes) == 0 && Count(KeptShape(x.shape, axes, keep)) > 0
  {
    var sums: Option<Tensor>;
    sums, axes := ReduceOp(Add, 0.0, x, names, keep);
    if sums.None? {
      return None, axes;
    }
    var n := GroupSize(x.shape, axes);
    var ys := sums.value.data;
    if n == 0 && ys != [] {
      return None, axes;
    }
    var y := new real[|ys|](o requires 0 <= o < |ys| => ys[o]);
    for i := 0 to |ys|
      invariant forall o: nat {:trigger y[o]} :: o < i ==> IsAverage(x, axes, o, y[o])
      invariant forall o: nat :: i <= o < |ys| ==> y[o] == ys[o]
    {
      MeanIsAverage(x, axes, keep, sums.value, i, Scaled(ys[i], n));
      y[i] := Scaled(y[i], n);
    }
    r := Some(Tensor(sums.value.shape, y[..]));
  }
}

/** Slicing undoes packing and padding. */
module RoundTrips {
  import opened Arith
  import opened Wrappers
  import opened Shapes
  import opened Broadcast
  import opened Pad
  import opened Pack
  import opened Slice

  function Same<T>(n: nat, v: T): (s: seq<T>)
    ensures |s| == n
  {
    seq(n, _ => v)
  }

  // ---------------------------------------------------------------- padding

  /** y is x inside zero margins. */
  ghost predicate Pads(x: Tensor, p: seq<nat>, y: Tensor)
    requires x.Valid() && 2 * |x.shape| <= |p|
  {
    && y.Valid() && y.shape == PaddedShape(x.shape, p)
    && forall j: nat :: j < |y.data| ==> y.data[j] == PaddedAt(x.data, j, x.shape, p)
  }

  /** Cut the margins off again: from before to before + dim, one by one. */
  function Margins(shape: Shape, p: seq<nat>): Request
    requires 2 * |shape| <= |p|
  {
    var n := |shape|;
    Request(Before(p, n), Plus(Before(p, n), shape), Same(n, 1), Same(n, false), Same(n, false), Same(n, false))
  }

  function Inner(shape: Shape, p: seq<nat>): (plans: seq<AxisPlan>)
    requires 2 * |shape| <= |p|
    ensures |plans| == |shape|
  {
    seq(|shape|, d requires 0 <= d < |shape| => AxisPlan(p[2 * d], shape[d], 1))
  }

  lemma MarginPlan(shape: Shape, p: seq<nat>, d: nat)
    requires 2 * |shape| <= |p| && d < |shape|
    ensures Margins(shape, p).AxisOf(PaddedShape(shape, p), d) == Some(Inner(shape, p)[d])
  {
    assert CeilDiv(shape[d], 1) == shape[d];
  }

  lemma MarginPlans(shape: Shape, p: seq<nat>, plans: seq<AxisPlan>)
    requires 2 * |shape| <= |p| && PlansFor(Margins(shape, p), PaddedShape(shape, p), plans)
    ensures plans == Inner(shape, p)
  {
    forall d | 0 <= d < |shape| ensures plans[d] == Inner(shape, p)[d] {
      MarginPlan(shape, p, d);
      assert Margins(shape, p).AxisOf(PaddedShape(shape, p), d) == Some(plans[d]);
    }
  }

  /** With no axis shrunk and steps of one, a slice only shifts the multi-index. */
  lemma {:induction false} ShiftOnly(out: seq<int>, plans: seq<AxisPlan>, shape: Shape)
    requires |plans| == |shape| == |out|
    requires forall d :: 0 <= d < |plans| ==> plans[d].size == shape[d] && plans[d].step == 1
    ensures OutShape(plans, Same(|plans|, false)) == shape
    ensures Source(out, plans, Same(|plans|, false)) == Plus(Starts(plans), out)
  {
    if plans != [] {
      FrontOfSame(|plans|, false);
      ShiftOnly(Front(out), Front(plans), Front(shape));
      ShiftSnoc(out, plans);
      CutJoin(shape, |shape| - 1);
    }
  }

  lemma ShiftSnoc(out: seq<int>, plans: seq<AxisPlan>)
    requires |plans| == |out| > 0
    ensures Plus(Starts(plans), out) == Plus(Starts(Front(plans)), Front(out)) + [Last(plans).start + Last(out)]
  {
  }

  lemma FrontOfSame<T>(n: nat, v: T)
    requires n > 0
    ensures Front(Same(n, v)) == Same(n - 1, v) && Last(Same(n, v)) == v
  {
  }

  lemma CutJoin<T>(s: seq<T>, k: nat)
    requires k <= |s|
    ensures s[..k] + s[k..] == s
  {
  }

  /** Slicing the margins away after padding returns the original tensor. */
  lemma PadThenSlice(x: Tensor, p: seq<nat>, y: Tensor, z: Tensor)
    requires x.Valid() && 2 * |x.shape| <= |p| && Pads(x, p, y) && IsSlice(y, Margins(x.shape, p), z)
    ensures z == x
  {
    var plans :| SlicedBy(y, Margins(x.shape, p), plans, z);
    MarginPlans(x.shape, p, plans);
    ShiftOnly(Zeros(|x.shape|), plans, x.shape);
    forall i: nat | i < |x.data| ensures z.data[i] == x.data[i] {
      SlicedPadding(x, p, y, i);
      assert z.data[i] == Selected(y, plans, Margins(x.shape, p).shrink, i);
    }
    assert z.data == x.data;
  }

  lemma SlicedPadding(x: Tensor, p: seq<nat>, y: Tensor, i: nat)
    requires x.Valid() && 2 * |x.shape| <= |p| && Pads(x, p, y) && i < |x.data|
    ensures var plans, no := Inner(x.shape, p), Same(|x.shape|, false);
            && OutShape(plans, no) == x.shape
            && Selected(y, plans, no, i) == x.data[i]
  {
    ShiftOnly(Unflat(i, x.shape), Inner(x.shape, p), x.shape);
    InnerStarts(x.shape, p);
    TargetOrigin(i, x.shape, p);
  }

  lemma InnerStarts(shape: Shape, p: seq<nat>)
    requires 2 * |shape| <= |p|
    ensures Starts(Inner(shape, p)) == Before(p, |shape|)
  {
  }

  /** The slice is never refused: padding and slicing together are total on enough paddings. */
  method PadAndSlice(x: Tensor, p: seq<nat>) returns (z: Tensor)
    requires x.Valid() && 2 * |x.shape| <= |p|
    ensures z == x
  {
    PaddingMargins(x, p);
    var y := PadZero(x, p);
    var q := Margins(x.shape, p);
    forall d | 0 <= d < |x.shape| ensures q.AxisOf(y.y.shape, d).Some? {
      MarginPlan(x.shape, p, d);
    }
    var r := StridedSlice(y.y, q);
    PadThenSlice(x, p, y.y, r.value);
    return r.value;
  }

  // ---------------------------------------------------------------- packing

  /** Keep every axis whole except the packed one, which is fixed at index i and dropped. */
  function Pick(rank: nat, axis: nat, i: int): Request
    requires axis < rank
  {
    Request(Same(rank, 0)[axis := i], Same(rank, 0), Same(rank, 1),
            Same(rank, true)[axis := false], Same(rank, true), Same(rank, false)[axis := true])
  }

  function Wholes(shape: Shape): (plans: seq<AxisPlan>)
    ensures |plans| == |shape|
  {
    seq(|shape|, d requires 0 <= d < |shape| => AxisPlan(0, shape[d], 1))
  }

  function Picked(shape: Shape, axis: nat, i: nat): (plans: seq<AxisPlan>)
    requires axis <= |shape|
    ensures |plans| == |shape| + 1
  {
    Wholes(shape[..axis]) + [AxisPlan(i, 1, 1)] + Wholes(shape[axis..])
  }

  lemma PickPlan(shape: Shape, axis: nat, i: int, n: nat, d: nat)
    requires axis <= |shape| && 0 <= FromEnd(i, n) < n && d <= |shape|
    ensures Pick(|shape| + 1, axis, i).AxisOf(PackShape(shape, axis, n), d)
      == Some(Picked(shape, axis, FromEnd(i, n))[d])
  {
    if d < axis {
      assert CeilDiv(shape[d], 1) == shape[d];
    } else if d > axis {
      assert shape[axis..][d - axis - 1] == shape[d - 1];
      assert CeilDiv(shape[d - 1], 1) == shape[d - 1];
    }
  }

  lemma PickPlans(shape: Shape, axis: nat, i: int, n: nat, plans: seq<AxisPlan>)
    requires axis <= |shape| && 0 <= FromEnd(i, n) < n
    requires PlansFor(Pick(|shape| + 1, axis, i), PackShape(shape, axis, n), plans)
    ensures plans == Picked(shape, axis, FromEnd(i, n))
  {
    var q := Pick(|shape| + 1, axis, i);
    forall d | 0 <= d <= |shape| ensures plans[d] == Picked(shape, axis, FromEnd(i, n))[d] {
      PickPlan(shape, axis, i, n, d);
      assert q.AxisOf(PackShape(shape, axis, n), d) == Some(plans[d]);
    }
  }

  /** Appending whole axes to a slice appends their coordinates unchanged. */
  lemma {:induction false} WholeTail(head: seq<AxisPlan>, shrink: seq<bool>, o: seq<int>, tail: Shape, t: seq<int>)
    requires |head| == |shrink| && |o| == |OutShape(head, shrink)| && |t| == |tail|
    ensures OutShape(head + Wholes(tail), shrink + Same(|tail|, false)) == OutShape(head, shrink) + tail
    ensures Source(o + t, head + Wholes(tail), shrink + Same(|tail|, false)) == Source(o, head, shrink) + t
  {
    var plans, s := head + Wholes(tail), shrink + Same(|tail|, false);
    if tail == [] {
      assert plans == head && s == shrink && o + t == o;
      assert OutShape(head, shrink) + tail == OutShape(head, shrink);
      assert Source(o, head, shrink) + t == Source(o, head, shrink);
    } else {
      WholeTail(head, shrink, o, Front(tail), Front(t));
      assert Front(plans) == head + Wholes(Front(tail)) && Last(plans) == AxisPlan(0, Last(tail), 1);
      assert Front(s) == shrink + Same(|tail| - 1, false) && !Last(s);
      assert Front(o + t) == o + Front(t);
      assert OutShape(head, shrink) + tail == OutShape(head, shrink) + Front(tail) + [Last(tail)];
      assert Source(o, head, shrink) + t == Source(o, head, shrink) + Front(t) + [Last(t)];
    }
  }

  lemma PickSource(shape: Shape, axis: nat, i: nat, a: seq<int>, c: seq<int>)
    requires axis <= |shape| && |a| == axis && |c| == |shape| - axis
    ensures var shrink := Same(|shape| + 1, false)[axis := true];
            && OutShape(Picked(shape, axis, i), shrink) == shape
            && Source(a + c, Picked(shape, axis, i), shrink) == a + [i] + c
  {
    var front, back := shape[..axis], shape[axis..];
    PickHead(front, i, a);
    WholeTail(Wholes(front) + [AxisPlan(i, 1, 1)], Same(axis, false) + [true], a, back, c);
    PickShrink(|shape|, axis);
    CutJoin(shape, axis);
  }

  lemma PickShrink(rank: nat, axis: nat)
    requires axis <= rank
    ensures Same(axis, false) + [true] + Same(rank - axis, false) == Same(rank + 1, false)[axis := true]
  {
  }

  lemma PickHead(front: Shape, i: nat, a: seq<int>)
    requires |a| == |front|
    ensures var head, hs := Wholes(front) + [AxisPlan(i, 1, 1)], Same(|front|, false) + [true];
            OutShape(head, hs) == front && Source(a, head, hs) == a + [i]
  {
    WholeHead(front, a);
    DropLast(Wholes(front), AxisPlan(i, 1, 1));
    DropLast(Same(|front|, false), true);
  }

  lemma WholeHead(front: Shape, a: seq<int>)
    requires |a| == |front|
    ensures OutShape(Wholes(front), Same(|front|, false)) == front
    ensures Source(a, Wholes(front), Same(|front|, false)) == a
  {
    WholeTail([], [], [], front, a);
    assert [] + Wholes(front) == Wholes(front) && [] + Same(|front|, false) == Same(|front|, false);
    assert [] + a == a && [] + front == front;
  }

  lemma DropLast<T>(s: seq<T>, v: T)
    ensures Front(s + [v]) == s && Last(s + [v]) == v
  {
  }

  /** Element j of input i sits in the packed buffer where the picking slice looks for it. */
  lemma PickedElement(shape: Shape, axis: nat, i: nat, n: nat, j: nat)
    requires axis <= |shape| && i < n && j < Count(shape)
    ensures Count(shape[axis..]) > 0
    ensures var plans, shrink := Picked(shape, axis, i), Same(|shape| + 1, false)[axis := true];
            && OutShape(plans, shrink) == shape
            && Flat(Source(Unflat(j, shape), plans, shrink), PackShape(shape, axis, n))
              == PackedIndex(i, j, n, Count(shape[axis..]))
  {
    var idx := Unflat(j, shape);
    FlatOf(j, shape);
    var a, c := idx[..axis], idx[axis..];
    CutJoin(idx, axis);
    PickSource(shape, axis, i, a, c);
    CutJoin(shape, axis);
    TailWithin(idx, shape, axis);
    PackedFlat(a, shape[..axis], i, n, c, shape[axis..], j);
  }

  lemma TailWithin(idx: seq<int>, shape: Shape, axis: nat)
    requires Within(idx, shape) && axis <= |shape|
    ensures Within(idx[axis..], shape[axis..])
  {
  }

  lemma PackedFlat(a: seq<int>, front: Shape, i: nat, n: nat, c: seq<int>, back: Shape, j: nat)
    requires |a| == |front| && Within(c, back) && j == Flat(a + c, front + back)
    ensures Count(back) > 0
    ensures Flat(a + [i] + c, front + [n] + back) == PackedIndex(i, j, n, Count(back))
  {
    FlatInRange(c, back);
    var fa, fc, inner := Flat(a, front), Flat(c, back), Count(back);
    JoinNamed(a, front, c, back, fa, inner, fc);
    FlatAppend(a, i, front, n);
    PackedNamed(a + [i], front + [n], c, back, fa, i, n, fc, inner, j);
  }

  lemma PackedNamed(ai: seq<int>, fn: Shape, c: seq<int>, back: Shape, fa: int, i: nat, n: nat, fc: int, inner: nat,
      j: nat)
    requires |ai| == |fn| && |c| == |back| && Flat(ai, fn) == fa * n + i
    requires fc == Flat(c, back) && inner == Count(back) && 0 <= fc < inner && j == fa * inner + fc
    ensures Flat(ai + c, fn + back) == PackedIndex(i, j, n, inner)
  {
    var block := fa * n + i;
    PackedIndexOf(fa, fc, i, n, inner, j, block);
    JoinNamed(ai, fn, c, back, block, inner, fc);
  }

  lemma JoinNamed(i: seq<int>, a: Shape, j: seq<int>, b: Shape, head: int, inner: nat, tail: int)
    requires |i| == |a| && |j| == |b|
    requires head == Flat(i, a) && inner == Count(b) && tail == Flat(j, b)
    ensures Flat(i + j, a + b) == head * inner + tail
  {
    FlatJoin(i, a, j, b);
  }

  lemma PackedIndexOf(b: int, r: nat, i: nat, n: nat, inner: nat, j: nat, block: int)
    requires r < inner && j == b * inner + r && block == b * n + i
    ensures PackedIndex(i, j, n, inner) == block * inner + r
  {
    RadixSplit(b, r, inner);
  }

  /** Slicing a packed tensor with shrink at index i of the packed axis returns input i. */
  lemma PackThenSlice(xs: seq<Tensor>, axis: nat, y: Tensor, i: int, z: Tensor)
    requires xs != [] && SameShapes(xs) && axis <= |xs[0].shape| && Packs(xs, axis, y)
    requires 0 <= FromEnd(i, |xs|) < |xs|
    requires IsSlice(y, Pick(|y.shape|, axis, i), z)
    ensures z == xs[FromEnd(i, |xs|)]
  {
    PickedSlice(y, xs[0].shape, axis, i, |xs|, z);
    PickedData(xs, axis, y, i, z);
  }

  lemma PickedSlice(y: Tensor, shape: Shape, axis: nat, i: int, n: nat, z: Tensor)
    requires axis <= |shape| && 0 <= FromEnd(i, n) < n && y.shape == PackShape(shape, axis, n)
    requires IsSlice(y, Pick(|y.shape|, axis, i), z)
    ensures SlicedBy(y, Pick(|y.shape|, axis, i), Picked(shape, axis, FromEnd(i, n)), z)
  {
    var plans :| SlicedBy(y, Pick(|y.shape|, axis, i), plans, z);
    PickPlans(shape, axis, i, n, plans);
  }

  lemma PickedData(xs: seq<Tensor>, axis: nat, y: Tensor, i: int, z: Tensor)
    requires xs != [] && SameShapes(xs) && axis <= |xs[0].shape| && Packs(xs, axis, y) && 0 <= FromEnd(i, |xs|) < |xs|
    requires SlicedBy(y, Pick(|y.shape|, axis, i), Picked(xs[0].shape, axis, FromEnd(i, |xs|)), z)
    ensures z == xs[FromEnd(i, |xs|)]
  {
    var shape, k := xs[0].shape, FromEnd(i, |xs|);
    PickSource(shape, axis, k, Zeros(axis), Zeros(|shape| - axis));
    assert xs[k].shape == shape;
    forall j: nat | j < |z.data| ensures z.data[j] == xs[k].data[j] {
      SlicedPack(xs, axis, y, k, j);
    }
    assert z.data == xs[k].data;
  }

  lemma SlicedPack(xs: seq<Tensor>, axis: nat, y: Tensor, k: nat, j: nat)
    requires xs != [] && SameShapes(xs) && axis <= |xs[0].shape| && Packs(xs, axis, y)
    requires k < |xs| && j < |xs[k].data|
    ensures var plans, shrink := Picked(xs[0].shape, axis, k), Same(|xs[0].shape| + 1, false)[axis := true];
            && OutShape(plans, shrink) == xs[0].shape && j < Count(xs[0].shape)
            && Selected(y, plans, shrink, j) == xs[k].data[j]
  {
    var shape := xs[0].shape;
    assert xs[k].shape == shape;
    PickedElement(shape, axis, k, |xs|, j);
    assert ElementIs(y.data, PackedIndex(k, j, |xs|, Count(shape[axis..])), xs[k].data[j]);
  }

  method PackAndSlice(xs: seq<Tensor>, axis: int, i: int) returns (z: Tensor)
    requires xs != [] && SameShapes(xs)
    requires 0 <= FromEnd(axis, |xs[0].shape| + 1) <= |xs[0].shape| && 0 <= FromEnd(i, |xs|) < |xs|
    ensures z == xs[FromEnd(i, |xs|)]
  {
    var y := Stack(xs, |xs|, axis);
    ghost var at := FromEnd(axis, |xs[0].shape| + 1);
    var q := Pick(|y.value.shape|, FromEnd(axis, |xs[0].shape| + 1), i);
    forall d | 0 <= d < |y.value.shape| ensures q.AxisOf(y.value.shape, d).Some? {
      PickPlan(xs[0].shape, at, i, |xs|, d);
    }
    var r := StridedSlice(y.value, q);
    PackThenSlice(xs, at, y.value, i, r.value);
    return r.value;
  }
}

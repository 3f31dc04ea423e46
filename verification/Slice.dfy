/** Strided slicing: which indices each axis visits, and the elements they select. */
module Slice {
  import opened Arith
  import opened Wrappers
  import opened Shapes
  import opened Odometer
  import opened Broadcast
  import opened Pad

  // ---------------------------------------------------------------- one axis

  function Clamp(index: int, dim: int, low: int, high: int): int {
    var i := if index < 0 then index + dim else index;
    var m := if i < low then low else i;
    if m > high then high else m
  }

  /** Start, number of visited indices and step of one axis. */
  datatype AxisPlan = AxisPlan(start: int, size: nat, step: int)

  function CeilDiv(n: int, d: int): nat
    requires d > 0
  {
    if n <= 0 then 0 else (n + d - 1) / d
  }

  /** The source halves toward zero; for a positive divisor the truncated quotient agrees after max with 0. */
  function SliceAxis(dim: nat, begin: int, end: int, stride: int, beginMask: bool, endMask: bool,
      shrink: bool): Option<AxisPlan> {
    if stride == 0 then None
    else if shrink then
      var b := if beginMask then 0 else begin;
      var i := if b < 0 then b + dim else b;
      if i < 0 || i >= dim then None else Some(AxisPlan(i, 1, stride))
    else if stride > 0 then
      var b := if beginMask then 0 else Clamp(begin, dim, 0, dim);
      var e := if endMask then dim else Clamp(end, dim, 0, dim);
      Some(AxisPlan(b, CeilDiv(e - b, stride), stride))
    else
      var b := if beginMask then dim - 1 else Clamp(begin, dim, -1, dim - 1);
      var e := if endMask then -1 else Clamp(end, dim, -1, dim - 1);
      Some(AxisPlan(b, CeilDiv(b - e, -stride), stride))
  }

  /** First index of an unshrunk axis: the requested one counted from the end when negative, clamped. */
  function First(dim: nat, begin: int, stride: int, mask: bool): int {
    if stride > 0 then (if mask then 0 else Clamp(begin, dim, 0, dim))
    else (if mask then dim - 1 else Clamp(begin, dim, -1, dim - 1))
  }

  /** Index the axis stops before. */
  function Stop(dim: nat, end: int, stride: int, mask: bool): int {
    if stride > 0 then (if mask then dim else Clamp(end, dim, 0, dim))
    else (if mask then -1 else Clamp(end, dim, -1, dim - 1))
  }

  /** i lies strictly before the stop in the direction of the stride. */
  predicate BeforeStop(i: int, stop: int, stride: int) {
    if stride > 0 then i < stop else i > stop
  }

  lemma CeilCounts(n: int, d: int, k: nat)
    requires d > 0
    ensures k < CeilDiv(n, d) <==> k * d < n
  {
    if n > 0 {
      var q := (n + d - 1) / d;
      assert n + d - 1 == d * q + (n + d - 1) % d;
      if k < q {
        MulMono(k + 1, q, d);
        MulDist(k, 1, d);
      } else {
        MulMono(q, k, d);
      }
    } else {
      MulNonneg(k, d);
    }
  }

  /**
   For either direction and all masks, an unshrunk axis visits first, first + stride, ... for
   exactly as long as they are strictly before the stop, and each visited index exists.
   */
  lemma AxisVisits(dim: nat, begin: int, end: int, stride: int, beginMask: bool, endMask: bool, k: nat)
    requires stride != 0
    ensures var plan := SliceAxis(dim, begin, end, stride, beginMask, endMask, false).value;
            var at := First(dim, begin, stride, beginMask) + k * stride;
            && plan.start + k * plan.step == at
            && (k < plan.size <==> BeforeStop(at, Stop(dim, end, stride, endMask), stride))
            && (k < plan.size ==> 0 <= at < dim)
  {
    var b, e := First(dim, begin, stride, beginMask), Stop(dim, end, stride, endMask);
    if stride > 0 {
      CeilCounts(e - b, stride, k);
      MulNonneg(k, stride);
    } else {
      CeilCounts(b - e, -stride, k);
      MulNonneg(k, -stride);
      assert k * -stride == -(k * stride);
    }
  }

  /** Where an axis that goes up begins to count its steps; one that goes down is the same from the other end. */
  function Origin(dim: nat, begin: int, stride: int, mask: bool): int {
    var b := FromEnd(begin, dim);
    if stride > 0 then (if mask || b < 0 then 0 else b) else (if mask || b >= dim then dim - 1 else b)
  }

  /** Not before the requested beginning and strictly before the requested end, in the direction of the stride. */
  predicate Between(dim: nat, begin: int, end: int, stride: int, beginMask: bool, endMask: bool, i: int) {
    if stride > 0 then (beginMask || FromEnd(begin, dim) <= i) && (endMask || i < FromEnd(end, dim))
    else (beginMask || i <= FromEnd(begin, dim)) && (endMask || FromEnd(end, dim) < i)
  }

  /**
   An unshrunk axis visits exactly the existing indices between the requested beginning and end that are
   whole strides away from the first, however far outside the axis the request reaches.
   */
  lemma AxisSelects(dim: nat, begin: int, end: int, stride: int, beginMask: bool, endMask: bool, i: int)
    requires stride != 0
    ensures var plan := SliceAxis(dim, begin, end, stride, beginMask, endMask, false).value;
            var from := Origin(dim, begin, stride, beginMask);
            (exists k: nat {:trigger Visited(plan, k)} :: k < plan.size && Visited(plan, k) == i) <==>
            0 <= i < dim && Between(dim, begin, end, stride, beginMask, endMask, i) && Strides(i - from, stride)
  {
    var plan := SliceAxis(dim, begin, end, stride, beginMask, endMask, false).value;
    var from := Origin(dim, begin, stride, beginMask);
    var first := First(dim, begin, stride, beginMask);
    forall k: nat | k < plan.size && Visited(plan, k) == i
      ensures 0 <= i < dim && Between(dim, begin, end, stride, beginMask, endMask, i) && Strides(i - from, stride)
    {
      AxisVisits(dim, begin, end, stride, beginMask, endMask, k);
      StridesFrom(first, stride, k);
    }
    if 0 <= i < dim && Between(dim, begin, end, stride, beginMask, endMask, i) && Strides(i - from, stride) {
      var k: nat :| i - from == k * stride;
      AxisVisits(dim, begin, end, stride, beginMask, endMask, k);
      assert Visited(plan, k) == i;
    }
  }

  /** d is some number of steps. */
  ghost predicate Strides(d: int, stride: int) {
    exists k: nat {:trigger k * stride} :: d == k * stride
  }

  lemma StridesFrom(first: int, stride: int, k: nat)
    ensures Strides(first + k * stride - first, stride)
  {
  }

  /** A shrunk axis is accepted exactly when the requested index exists, and selects it alone. */
  lemma ShrunkAxis(dim: nat, begin: int, end: int, stride: int, beginMask: bool, endMask: bool)
    requires stride != 0
    ensures var at := if beginMask then 0 else FromEnd(begin, dim);
            SliceAxis(dim, begin, end, stride, beginMask, endMask, true)
              == if 0 <= at < dim then Some(AxisPlan(at, 1, stride)) else None
  {
  }

  // ---------------------------------------------------------------- all axes

  /** What an accepted axis promises: every index it visits exists. */
  ghost predicate AxisInside(plan: AxisPlan, dim: nat, shrink: bool) {
    if shrink then 0 <= plan.start < dim
    else forall k: nat {:trigger Visited(plan, k)} :: k < plan.size ==> 0 <= Visited(plan, k) < dim
  }

  function Visited(plan: AxisPlan, k: int): int {
    plan.start + k * plan.step
  }

  lemma AcceptedAxisInside(dim: nat, begin: int, end: int, stride: int, beginMask: bool, endMask: bool, shrink: bool)
    requires SliceAxis(dim, begin, end, stride, beginMask, endMask, shrink).Some?
    ensures AxisInside(SliceAxis(dim, begin, end, stride, beginMask, endMask, shrink).value, dim, shrink)
  {
    if !shrink {
      var plan := SliceAxis(dim, begin, end, stride, beginMask, endMask, false).value;
      forall k: nat | k < plan.size ensures 0 <= Visited(plan, k) < dim {
        AxisVisits(dim, begin, end, stride, beginMask, endMask, k);
      }
    }
  }

  ghost predicate AllInside(plans: seq<AxisPlan>, shrink: seq<bool>, shape: Shape) {
    && |plans| == |shrink| == |shape|
    && forall d :: 0 <= d < |plans| ==> AxisInside(plans[d], shape[d], shrink[d])
  }

  /** Shape of the output: shrunk axes disappear. */
  function OutShape(plans: seq<AxisPlan>, shrink: seq<bool>): (s: Shape)
    requires |plans| == |shrink|
  {
    if plans == [] then []
    else if Last(shrink) then OutShape(Front(plans), Front(shrink))
    else OutShape(Front(plans), Front(shrink)) + [Last(plans).size]
  }

  /** Input multi-index behind an output multi-index. */
  function Source(out: seq<int>, plans: seq<AxisPlan>, shrink: seq<bool>): (s: seq<int>)
    requires |plans| == |shrink| && |out| == |OutShape(plans, shrink)|
    ensures |s| == |plans|
  {
    if plans == [] then []
    else if Last(shrink) then Source(out, Front(plans), Front(shrink)) + [Last(plans).start]
    else Source(Front(out), Front(plans), Front(shrink)) + [Visited(Last(plans), Last(out))]
  }

  /** Every selected input element exists. */
  lemma {:induction false} SourceWithin(out: seq<int>, plans: seq<AxisPlan>, shrink: seq<bool>, shape: Shape)
    requires AllInside(plans, shrink, shape) && Within(out, OutShape(plans, shrink))
    ensures Within(Source(out, plans, shrink), shape)
  {
    if plans != [] {
      AllInsideFront(plans, shrink, shape);
      var axis := Last(plans);
      if Last(shrink) {
        SourceWithin(out, Front(plans), Front(shrink), Front(shape));
        WithinSnoc(Source(out, Front(plans), Front(shrink)), axis.start, shape);
      } else {
        FrontWithin(out, OutShape(Front(plans), Front(shrink)), axis.size);
        SourceWithin(Front(out), Front(plans), Front(shrink), Front(shape));
        assert 0 <= Visited(axis, Last(out)) < Last(shape);
        WithinSnoc(Source(Front(out), Front(plans), Front(shrink)), Visited(axis, Last(out)), shape);
      }
    }
  }

  lemma AllInsideFront(plans: seq<AxisPlan>, shrink: seq<bool>, shape: Shape)
    requires AllInside(plans, shrink, shape) && plans != []
    ensures AllInside(Front(plans), Front(shrink), Front(shape))
    ensures AxisInside(Last(plans), Last(shape), Last(shrink))
  {
    forall d | 0 <= d < |plans| - 1 ensures AxisInside(Front(plans)[d], Front(shape)[d], Front(shrink)[d]) {
      assert AxisInside(plans[d], shape[d], shrink[d]);
    }
  }

  lemma WithinSnoc(s: seq<int>, v: int, shape: Shape)
    requires shape != [] && Within(s, Front(shape)) && 0 <= v < Last(shape)
    ensures Within(s + [v], shape)
  {
    assert forall d :: 0 <= d < |shape| - 1 ==> Front(shape)[d] == shape[d];
  }

  lemma FrontWithin(out: seq<int>, shape: Shape, n: nat)
    requires Within(out, shape + [n])
    ensures Within(Front(out), shape) && 0 <= Last(out) < n
  {
    assert forall d :: 0 <= d < |shape| ==> (shape + [n])[d] == shape[d];
  }

  /** y holds, at each of its positions, the input element the slice selects for it. */
  ghost predicate Selects(x: Tensor, plans: seq<AxisPlan>, shrink: seq<bool>, y: Tensor)
    requires x.Valid() && AllInside(plans, shrink, x.shape)
  {
    && y.Valid() && y.shape == OutShape(plans, shrink)
    && forall i: nat :: i < Count(y.shape) ==> y.data[i] == Selected(x, plans, shrink, i)
  }

  function Selected(x: Tensor, plans: seq<AxisPlan>, shrink: seq<bool>, i: nat): real
    requires x.Valid() && |plans| == |shrink| == |x.shape| && i < Count(OutShape(plans, shrink))
  {
    var at := Flat(Source(Unflat(i, OutShape(plans, shrink)), plans, shrink), x.shape);
    if 0 <= at < |x.data| then x.data[at] else 0.0
  }

  // ---------------------------------------------------------------- the kernel

  datatype Request = Request(begin: seq<int>, end: seq<int>, stride: seq<int>,
                             beginMask: seq<bool>, endMask: seq<bool>, shrink: seq<bool>)
  {
    predicate Fits(rank: nat) {
      && |begin| == |end| == |stride| == rank
      && |beginMask| == |endMask| == |shrink| == rank
    }

    function AxisOf(shape: Shape, d: nat): Option<AxisPlan>
      requires Fits(|shape|) && d < |shape|
    {
      SliceAxis(shape[d], begin[d], end[d], stride[d], beginMask[d], endMask[d], shrink[d])
    }
  }

  ghost predicate PlansFor(q: Request, shape: Shape, plans: seq<AxisPlan>) {
    && q.Fits(|shape|) && |plans| == |shape|
    && forall d :: 0 <= d < |shape| ==> q.AxisOf(shape, d) == Some(plans[d])
  }

  lemma PlansInside(q: Request, shape: Shape, plans: seq<AxisPlan>)
    requires PlansFor(q, shape, plans)
    ensures AllInside(plans, q.shrink, shape)
  {
    forall d | 0 <= d < |plans| ensures AxisInside(plans[d], shape[d], q.shrink[d]) {
      assert q.AxisOf(shape, d) == Some(plans[d]);
      AcceptedAxisInside(shape[d], q.begin[d], q.end[d], q.stride[d], q.beginMask[d], q.endMask[d], q.shrink[d]);
    }
  }

  /** Output axis of an input axis, or -1 for a shrunk one. */
  function AxisOut(shrink: seq<bool>, d: nat): int
    requires d < |shrink|
  {
    if shrink[d] then -1 else Kept(shrink[..d])
  }

  function Kept(shrink: seq<bool>): nat {
    if shrink == [] then 0 else Kept(Front(shrink)) + if Last(shrink) then 0 else 1
  }

  lemma {:induction false} OutRank(plans: seq<AxisPlan>, shrink: seq<bool>)
    requires |plans| == |shrink|
    ensures |OutShape(plans, shrink)| == Kept(shrink)
  {
    if plans != [] {
      OutRank(Front(plans), Front(shrink));
    }
  }

  /** The first d axes are planned. */
  ghost predicate Planned(q: Request, shape: Shape, d: nat, plans: seq<AxisPlan>, out: Shape, axisOut: seq<int>) {
    && q.Fits(|shape|) && d <= |shape| && |plans| == |axisOut| == d
    && (forall k: nat {:trigger plans[k]} {:trigger q.AxisOf(shape, k)} :: k < d ==>
      q.AxisOf(shape, k) == Some(plans[k]))
    && (forall k: nat {:trigger axisOut[k]} :: k < d ==> axisOut[k] == AxisOut(q.shrink, k))
    && out == OutShape(plans, q.shrink[..d])
  }

  lemma PlannedNext(q: Request, shape: Shape, d: nat, plans: seq<AxisPlan>, out: Shape, axisOut: seq<int>,
      plan: AxisPlan)
    requires Planned(q, shape, d, plans, out, axisOut) && d < |shape| && q.AxisOf(shape, d) == Some(plan)
    ensures Planned(q, shape, d + 1, plans + [plan],
                    if q.shrink[d] then out else out + [plan.size],
                    axisOut + [if q.shrink[d] then -1 else |out|])
  {
    OutRank(plans, q.shrink[..d]);
    OutShapeNext(plans, plan, q.shrink, d);
  }

  lemma OutShapeNext(plans: seq<AxisPlan>, plan: AxisPlan, shrink: seq<bool>, d: nat)
    requires |plans| == d < |shrink|
    ensures OutShape(plans + [plan], shrink[..d + 1])
         == if shrink[d] then OutShape(plans, shrink[..d]) else OutShape(plans, shrink[..d]) + [plan.size]
  {
    assert shrink[..d + 1] == shrink[..d] + [shrink[d]];
    OutShapeSnoc(plans, plan, shrink[..d], shrink[d]);
    assert OutShape(plans, shrink[..d]) + [] == OutShape(plans, shrink[..d]);
  }

  method Plan(q: Request, shape: Shape) returns (r: Option<(seq<AxisPlan>, Shape, seq<int>)>)
    requires q.Fits(|shape|)
    ensures r.None? <==> exists d :: 0 <= d < |shape| && q.AxisOf(shape, d).None?
    ensures r.Some? ==> Planned(q, shape, |shape|, r.value.0, r.value.1, r.value.2)
  {
    var plans: seq<AxisPlan>, out: Shape, axisOut: seq<int> := [], [], [];
    for d := 0 to |shape|
      invariant Planned(q, shape, d, plans, out, axisOut)
    {
      var plan := SliceAxis(shape[d], q.begin[d], q.end[d], q.stride[d], q.beginMask[d], q.endMask[d], q.shrink[d]);
      if plan.None? {
        assert q.AxisOf(shape, d).None?;
        return None;
      }
      PlannedNext(q, shape, d, plans, out, axisOut, plan.value);
      axisOut := axisOut + [if q.shrink[d] then -1 else |out|];
      if !q.shrink[d] {
        out := out + [plan.value.size];
      }
      plans := plans + [plan.value];
    }
    return Some((plans, out, axisOut));
  }

  lemma OutShapeSnoc(plans: seq<AxisPlan>, plan: AxisPlan, shrink: seq<bool>, s: bool)
    requires |plans| == |shrink|
    ensures OutShape(plans + [plan], shrink + [s]) == OutShape(plans, shrink) + if s then [] else [plan.size]
  {
    assert Front(plans + [plan]) == plans && Front(shrink + [s]) == shrink;
  }

  /** One coordinate of a row-major position, by dividing away the later axes. */
  method Coordinate(i: nat, shape: Shape, axis: nat) returns (c: int)
    requires i < Count(shape) && axis < |shape|
    ensures c == Unflat(i, shape)[axis]
  {
    var index := i;
    var d := |shape|;
    assert shape[..d] == shape;
    while d - 1 > axis
      invariant axis < d <= |shape|
      invariant 0 <= index < Count(shape[..d])
      invariant Unflat(i, shape)[axis] == Unflat(index, shape[..d])[axis]
    {
      d := d - 1;
      LastDigit(index, shape[..d + 1]);
      assert Front(shape[..d + 1]) == shape[..d];
      index := index / shape[d];
    }
    LastDigit(index, shape[..d]);
    c := index % shape[axis];
  }

  /** Offset contributions of the unshrunk axes for an output multi-index. */
  function Moves(out: seq<int>, plans: seq<AxisPlan>, shrink: seq<bool>): (m: seq<int>)
    requires |plans| == |shrink| && |out| == |OutShape(plans, shrink)|
    ensures |m| == |plans|
  {
    if plans == [] then []
    else if Last(shrink) then Moves(out, Front(plans), Front(shrink)) + [0]
    else Moves(Front(out), Front(plans), Front(shrink)) + [Last(out) * Last(plans).step]
  }

  function Starts(plans: seq<AxisPlan>): (s: seq<int>)
    ensures |s| == |plans|
  {
    seq(|plans|, d requires 0 <= d < |plans| => plans[d].start)
  }

  lemma {:induction false} SourceIsStartPlusMoves(out: seq<int>, plans: seq<AxisPlan>, shrink: seq<bool>)
    requires |plans| == |shrink| && |out| == |OutShape(plans, shrink)|
    ensures Source(out, plans, shrink) == Plus(Starts(plans), Moves(out, plans, shrink))
  {
    if plans != [] {
      var o := if Last(shrink) then out else Front(out);
      SourceIsStartPlusMoves(o, Front(plans), Front(shrink));
      assert Starts(plans) == Starts(Front(plans)) + [Last(plans).start];
    }
  }

  lemma {:induction false} MoveAt(out: seq<int>, plans: seq<AxisPlan>, shrink: seq<bool>, d: nat)
    requires |plans| == |shrink| && |out| == |OutShape(plans, shrink)| && d < |plans|
    ensures !shrink[d] ==> 0 <= AxisOut(shrink, d) < |out|
    ensures Moves(out, plans, shrink)[d] == if shrink[d] then 0 else out[AxisOut(shrink, d)] * plans[d].step
  {
    var o := if Last(shrink) then out else Front(out);
    OutRank(Front(plans), Front(shrink));
    if d == |plans| - 1 {
      assert shrink[..d] == Front(shrink);
    } else {
      MoveAt(o, Front(plans), Front(shrink), d);
      assert Front(shrink)[..d] == shrink[..d];
    }
  }

  ghost predicate SlicedBy(x: Tensor, q: Request, plans: seq<AxisPlan>, y: Tensor) {
    && x.Valid() && PlansFor(q, x.shape, plans) && AllInside(plans, q.shrink, x.shape)
    && Selects(x, plans, q.shrink, y)
  }

  /** y is the requested slice of x. */
  ghost predicate IsSlice(x: Tensor, q: Request, y: Tensor) {
    exists plans :: SlicedBy(x, q, plans, y)
  }

  method StridedSlice(x: Tensor, q: Request) returns (r: Option<Tensor>)
    requires x.Valid()
    ensures r.None? <==> !q.Fits(|x.shape|) || exists d :: 0 <= d < |x.shape| && q.AxisOf(x.shape, d).None?
    ensures r.Some? ==> IsSlice(x, q, r.value)
  {
    if !q.Fits(|x.shape|) {
      return None;
    }
    var planned := Plan(q, x.shape);
    if planned.None? {
      return None;
    }
    var (plans, shape, axisOut) := planned.value;
    assert q.shrink[..|x.shape|] == q.shrink;
    PlansInside(q, x.shape, plans);
    var y := Gather(x, plans, q.shrink, shape, axisOut);
    r := Some(Tensor(shape, y[..]));
    assert SlicedBy(x, q, plans, r.value);
  }

  method Gather(x: Tensor, plans: seq<AxisPlan>, ghost shrink: seq<bool>, shape: Shape, axisOut: seq<int>)
      returns (y: array<real>)
    requires x.Valid() && AllInside(plans, shrink, x.shape)
    requires |axisOut| == |plans| && shape == OutShape(plans, shrink)
    requires forall d :: 0 <= d < |plans| ==> axisOut[d] == AxisOut(shrink, d)
    ensures y.Length == Count(shape) && SelectedTo(x, plans, shrink, y[..], Count(shape))
  {
    y := new real[Count(shape)];
    var strides := ContiguousStrides(x.shape);
    var xs := strides[..];
    var base := Dot(Starts(plans), xs);
    for i := 0 to Count(shape)
      invariant SelectedTo(x, plans, shrink, y[..], i)
    {
      var offset := OffsetOf(i, plans, shrink, shape, axisOut, xs, base);
      SelectedAt(x, plans, shrink, i, offset);
      SelectedNext(x, plans, shrink, y[..], i);
      y[i] := x.data[offset];
    }
  }

  ghost predicate SelectedTo(x: Tensor, plans: seq<AxisPlan>, shrink: seq<bool>, ys: seq<real>, n: nat) {
    && x.Valid() && |plans| == |shrink| == |x.shape| && n <= |ys| == Count(OutShape(plans, shrink))
    && forall k: nat {:trigger ys[k]} :: k < n ==> ys[k] == Selected(x, plans, shrink, k)
  }

  lemma SelectedNext(x: Tensor, plans: seq<AxisPlan>, shrink: seq<bool>, ys: seq<real>, i: nat)
    requires i < |ys| && SelectedTo(x, plans, shrink, ys, i)
    ensures SelectedTo(x, plans, shrink, ys[i := Selected(x, plans, shrink, i)], i + 1)
  {
  }

  method OffsetOf(i: nat, plans: seq<AxisPlan>, ghost shrink: seq<bool>, shape: Shape, axisOut: seq<int>, xs: seq<int>,
      base: int)
    returns (offset: int)
    requires |plans| == |shrink| == |xs| == |axisOut| && shape == OutShape(plans, shrink) && i < Count(shape)
    requires forall d :: 0 <= d < |plans| ==> axisOut[d] == AxisOut(shrink, d)
    ensures offset == base + Dot(Moves(Unflat(i, shape), plans, shrink), xs)
  {
    ghost var m := Moves(Unflat(i, shape), plans, shrink);
    offset := base;
    for d := 0 to |plans|
      invariant offset == base + Dot(m[..d], xs[..d])
    {
      MoveAt(Unflat(i, shape), plans, shrink, d);
      assert Front(m[..d + 1]) == m[..d] && Front(xs[..d + 1]) == xs[..d];
      if axisOut[d] >= 0 {
        var c := Coordinate(i, shape, axisOut[d]);
        offset := offset + c * plans[d].step * xs[d];
      }
    }
    assert m[..|plans|] == m && xs[..|plans|] == xs;
  }

  lemma SelectedAt(x: Tensor, plans: seq<AxisPlan>, shrink: seq<bool>, i: nat, offset: int)
    requires x.Valid() && AllInside(plans, shrink, x.shape) && i < Count(OutShape(plans, shrink))
    requires offset == Dot(Starts(plans), Contiguous(x.shape))
                     + Dot(Moves(Unflat(i, OutShape(plans, shrink)), plans, shrink), Contiguous(x.shape))
    ensures 0 <= offset < |x.data| && x.data[offset] == Selected(x, plans, shrink, i)
  {
    var out := Unflat(i, OutShape(plans, shrink));
    FlatOf(i, OutShape(plans, shrink));
    SourceWithin(out, plans, shrink, x.shape);
    FlatInRange(Source(out, plans, shrink), x.shape);
    SourceIsStartPlusMoves(out, plans, shrink);
    DotAdd(Starts(plans), Moves(out, plans, shrink), Contiguous(x.shape));
    DotContiguous(Source(out, plans, shrink), x.shape);
  }
}

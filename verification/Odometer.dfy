/** The odometers that walk source buffers alongside a row-major output. */
module Odometer {
  import opened Arith
  import opened Shapes

  /** The multi-index after idx, wrapping to all zeros at the end. */
  function Next(idx: seq<int>, shape: Shape): (next: seq<int>)
    requires |idx| == |shape|
    ensures |next| == |shape|
  {
    if shape == [] then []
    else if Last(idx) + 1 < Last(shape) then Front(idx) + [Last(idx) + 1]
    else Next(Front(idx), Front(shape)) + [0]
  }

  /** Next counts: it is the multi-index of the following position, or of 0 at the end. */
  lemma {:induction false} NextCounts(idx: seq<int>, shape: Shape)
    requires Within(idx, shape)
    ensures Within(Next(idx, shape), shape)
    ensures Flat(Next(idx, shape), shape) ==
      if Flat(idx, shape) + 1 < Count(shape) then Flat(idx, shape) + 1 else 0
  {
    if shape != [] {
      FlatInRange(Front(idx), Front(shape));
      if Last(idx) + 1 < Last(shape) {
        NoCarry(idx, shape);
      } else {
        NextCounts(Front(idx), Front(shape));
        Carry(idx, shape);
      }
    }
  }

  lemma NoCarry(idx: seq<int>, shape: Shape)
    requires Within(idx, shape) && shape != [] && Last(idx) + 1 < Last(shape)
    requires 0 <= Flat(Front(idx), Front(shape)) < Count(Front(shape))
    ensures Within(Next(idx, shape), shape)
    ensures Flat(Next(idx, shape), shape) == Flat(idx, shape) + 1 < Count(shape)
  {
    FlatSnoc(Front(idx), Last(idx) + 1, shape);
    RadixBound(Flat(Front(idx), Front(shape)), Count(Front(shape)), Last(idx) + 1, Last(shape));
  }

  lemma Carry(idx: seq<int>, shape: Shape)
    requires Within(idx, shape) && shape != [] && Last(idx) + 1 >= Last(shape)
    requires 0 <= Flat(Front(idx), Front(shape)) < Count(Front(shape))
    requires Within(Next(Front(idx), Front(shape)), Front(shape))
    requires var f, c := Flat(Front(idx), Front(shape)), Count(Front(shape));
             Flat(Next(Front(idx), Front(shape)), Front(shape)) == if f + 1 < c then f + 1 else 0
    ensures Within(Next(idx, shape), shape)
    ensures Flat(Next(idx, shape), shape) ==
      if Flat(idx, shape) + 1 < Count(shape) then Flat(idx, shape) + 1 else 0
  {
    var f, g, c, n := Flat(Front(idx), Front(shape)), Flat(Next(Front(idx), Front(shape)), Front(shape)),
        Count(Front(shape)), Last(shape);
    FlatSnoc(Next(Front(idx), Front(shape)), 0, shape);
    assert Flat(Next(idx, shape), shape) == g * n;
    assert Flat(idx, shape) == f * n + Last(idx) && Count(shape) == c * n;
    CarryArith(f, g, c, n, Last(idx), g * n, f * n + Last(idx), c * n);
  }

  lemma CarryArith(f: nat, g: int, c: nat, n: nat, last: int, next: int, at: int, count: int)
    requires f < c && last == n - 1 >= 0 && g == if f + 1 < c then f + 1 else 0
    requires next == g * n && at == f * n + last && count == c * n
    ensures next == if at + 1 < count then at + 1 else 0
  {
    MulDist(f, 1, n);
    if f + 1 < c {
      MulMono(f + 2, c, n);
      MulDist(f + 1, 1, n);
    }
  }

  /** After i steps from zero the odometer shows the mixed-radix digits of i. */
  lemma NextUnflat(i: nat, shape: Shape)
    requires i < Count(shape)
    ensures i + 1 < Count(shape) ==> Next(Unflat(i, shape), shape) == Unflat(i + 1, shape)
    ensures i + 1 == Count(shape) ==> Next(Unflat(i, shape), shape) == Unflat(0, shape)
  {
    FlatOf(i, shape);
    NextCounts(Unflat(i, shape), shape);
    UnflatOf(Next(Unflat(i, shape), shape), shape);
  }

  lemma {:induction false} UnflatZero(shape: Shape)
    requires Count(shape) > 0
    ensures Unflat(0, shape) == Zeros(|shape|)
  {
    if shape != [] {
      LastDigit(0, shape);
      UnflatZero(Front(shape));
      DivUnique(0, Last(shape), 0, 0);
    }
  }

  /** Digits d and up have wrapped; the carry into the digits before d is still due. */
  ghost predicate Carrying(idx: seq<int>, start: seq<int>, shape: Shape, d: nat)
    requires |start| == |shape|
  {
    && d <= |shape| && |idx| == |shape|
    && idx == start[..d] + Zeros(|shape| - d)
    && Next(start, shape) == Next(start[..d], shape[..d]) + Zeros(|shape| - d)
  }

  lemma CarryStart(start: seq<int>, shape: Shape)
    requires |start| == |shape|
    ensures Carrying(start, start, shape, |shape|)
  {
    assert start[..|shape|] == start && shape[..|shape|] == shape;
    assert Next(start, shape) + Zeros(0) == Next(start, shape);
  }

  lemma CarryOn(idx: seq<int>, start: seq<int>, shape: Shape, d: nat)
    requires |start| == |shape| && Carrying(idx, start, shape, d + 1)
    ensures idx[d] == start[d]
    ensures start[d] + 1 < shape[d] ==> idx[d := start[d] + 1] == Next(start, shape)
    ensures start[d] + 1 >= shape[d] ==> Carrying(idx[d := 0], start, shape, d)
  {
    var i, s := start[..d + 1], shape[..d + 1];
    assert Front(i) == start[..d] && Last(i) == start[d];
    assert Front(s) == shape[..d] && Last(s) == shape[d];
    var z := Zeros(|shape| - d);
    assert z == [0] + Zeros(|shape| - (d + 1));
    if start[d] + 1 < shape[d] {
      assert idx[d := start[d] + 1] == start[..d] + [start[d] + 1] + Zeros(|shape| - (d + 1));
    } else {
      assert Next(start, shape) == Next(start[..d], shape[..d]) + [0] + Zeros(|shape| - (d + 1));
      assert Next(start, shape) == Next(start[..d], shape[..d]) + z;
      assert idx[d := 0] == start[..d] + z;
    }
  }

  lemma CarryDone(idx: seq<int>, start: seq<int>, shape: Shape)
    requires |start| == |shape| && Carrying(idx, start, shape, 0)
    ensures idx == Next(start, shape)
  {
    assert start[..0] == [] && shape[..0] == [];
    assert Next([], []) + Zeros(|shape|) == Zeros(|shape|);
  }

  /** The part of an offset that does not come from the multi-index. */
  ghost function Base(off: int, idx: seq<int>, strides: seq<int>): int
    requires |idx| == |strides|
  {
    off - Dot(idx, strides)
  }

  /** Advances the odometer in place and returns the offset that goes with the new position. */
  method Step1(idx: array<int>, shape: Shape, strides: seq<int>, off0: int) returns (off: int)
    requires idx.Length == |shape| == |strides|
    requires Within(idx[..], shape)
    modifies idx
    ensures idx[..] == Next(old(idx[..]), shape)
    ensures Base(off, idx[..], strides) == Base(off0, old(idx[..]), strides)
  {
    off := off0;
    ghost var start := idx[..];
    CarryStart(start, shape);
    var d := |shape|;
    while d > 0
      invariant 0 <= d <= |shape|
      invariant Carrying(idx[..], start, shape, d)
      invariant Base(off, idx[..], strides) == Base(off0, start, strides)
    {
      d := d - 1;
      ghost var before := idx[..];
      CarryOn(before, start, shape, d);
      StrideStep(before, strides, d, shape[d]);
      idx[d] := idx[d] + 1;
      off := off + strides[d];
      assert idx[..] == before[d := before[d] + 1];
      if idx[d] < shape[d] {
        return;
      }
      idx[d] := 0;
      off := off - strides[d] * shape[d];
      assert idx[..] == before[d := 0];
    }
    CarryDone(idx[..], start, shape);
  }

  lemma StrideStep(idx: seq<int>, strides: seq<int>, d: nat, n: int)
    requires |idx| == |strides| && d < |idx|
    ensures Dot(idx[d := idx[d] + 1], strides) == Dot(idx, strides) + strides[d]
    ensures idx[d] + 1 == n ==> Dot(idx[d := 0], strides) == Dot(idx, strides) + strides[d] - strides[d] * n
  {
    DotUpdate(idx, strides, d, idx[d] + 1);
    DotUpdate(idx, strides, d, 0);
    if idx[d] + 1 == n {
      MulDist(1, n, strides[d]);
    }
  }

  /** The two-source odometer. */
  method Step(idx: array<int>, shape: Shape, aStrides: seq<int>, bStrides: seq<int>, ao0: int, bo0: int)
    returns (ao: int, bo: int)
    requires idx.Length == |shape| == |aStrides| == |bStrides|
    requires Within(idx[..], shape)
    modifies idx
    ensures idx[..] == Next(old(idx[..]), shape)
    ensures Base(ao, idx[..], aStrides) == Base(ao0, old(idx[..]), aStrides)
    ensures Base(bo, idx[..], bStrides) == Base(bo0, old(idx[..]), bStrides)
  {
    ao, bo := ao0, bo0;
    ghost var start := idx[..];
    CarryStart(start, shape);
    var d := |shape|;
    while d > 0
      invariant 0 <= d <= |shape|
      invariant Carrying(idx[..], start, shape, d)
      invariant Base(ao, idx[..], aStrides) == Base(ao0, start, aStrides)
      invariant Base(bo, idx[..], bStrides) == Base(bo0, start, bStrides)
    {
      d := d - 1;
      ghost var before := idx[..];
      CarryOn(before, start, shape, d);
      StrideStep(before, aStrides, d, shape[d]);
      StrideStep(before, bStrides, d, shape[d]);
      idx[d] := idx[d] + 1;
      ao, bo := ao + aStrides[d], bo + bStrides[d];
      assert idx[..] == before[d := before[d] + 1];
      if idx[d] < shape[d] {
        return;
      }
      idx[d] := 0;
      ao, bo := ao - aStrides[d] * shape[d], bo - bStrides[d] * shape[d];
      assert idx[..] == before[d := 0];
    }
    CarryDone(idx[..], start, shape);
  }

  // ---------------------------------------------------------------- walking a source

  /** Offset of the source element at output position i, for given strides per output axis. */
  function Offset(i: nat, shape: Shape, strides: seq<int>): int
    requires i < Count(shape) && |strides| == |shape|
  {
    Dot(Unflat(i, shape), strides)
  }

  /** Before output position i the odometer shows i and the offset is the one that goes with it. */
  ghost predicate Walk(i: nat, shape: Shape, strides: seq<int>, base: int, idx: seq<int>, off: int) {
    && |idx| == |shape| == |strides|
    && off == base + Dot(idx, strides)
    && (i < Count(shape) ==> idx == Unflat(i, shape))
  }

  lemma WalkStart(shape: Shape, strides: seq<int>, base: int, idx: seq<int>)
    requires |strides| == |shape| && idx == Zeros(|shape|)
    ensures Walk(0, shape, strides, base, idx, base)
  {
    DotOfZeros(strides);
    if Count(shape) > 0 {
      UnflatZero(shape);
    }
  }

  lemma WalkAt(i: nat, shape: Shape, strides: seq<int>, base: int, idx: seq<int>, off: int)
    requires i < Count(shape) && Walk(i, shape, strides, base, idx, off)
    ensures off == base + Offset(i, shape, strides) && Within(idx, shape)
  {
    FlatOf(i, shape);
  }

  lemma WalkNext(i: nat, shape: Shape, strides: seq<int>, base: int, idx: seq<int>, off: int, idx': seq<int>, off': int)
    requires i < Count(shape) && Walk(i, shape, strides, base, idx, off)
    requires idx' == Next(idx, shape) && Base(off', idx', strides) == Base(off, idx, strides)
    ensures Walk(i + 1, shape, strides, base, idx', off')
  {
    NextUnflat(i, shape);
  }

  /** One step of a single-source walk. */
  method WalkStep(ghost i: nat, shape: Shape, strides: seq<int>, ghost base: int, idx: array<int>, off0: int)
      returns (off: int)
    requires i < Count(shape) && Walk(i, shape, strides, base, idx[..], off0)
    modifies idx
    ensures Walk(i + 1, shape, strides, base, idx[..], off)
  {
    ghost var before := idx[..];
    WalkAt(i, shape, strides, base, before, off0);
    off := Step1(idx, shape, strides, off0);
    WalkNext(i, shape, strides, base, before, off0, idx[..], off);
  }

  /** Fills the strides of a dense buffer from the last axis to the first. */
  method ContiguousStrides(shape: Shape) returns (s: array<int>)
    ensures fresh(s) && s[..] == Contiguous(shape)
  {
    s := new int[|shape|];
    var stride := 1;
    var d := |shape|;
    ScaleOne(Contiguous(shape));
    assert shape[..d] == shape && s[d..] == [];
    assert Contiguous(shape) == Scale(Contiguous(shape[..d]), 1) + [];
    while d > 0
      invariant 0 <= d <= |shape| == s.Length
      invariant Contiguous(shape) == Scale(Contiguous(shape[..d]), stride) + s[d..]
    {
      d := d - 1;
      ghost var done := s[d + 1..];
      ContiguousSnoc(shape[..d + 1], stride);
      assert Front(shape[..d + 1]) == shape[..d];
      s[d] := stride;
      stride := stride * shape[d];
      assert s[d..] == [s[d]] + done;
    }
    assert Contiguous(shape[..0]) == [];
  }

  lemma ContiguousSnoc(shape: Shape, stride: int)
    requires shape != []
    ensures Scale(Contiguous(shape), stride) == Scale(Contiguous(Front(shape)), stride * Last(shape)) + [stride]
  {
    ScaleSnoc(Scale(Contiguous(Front(shape)), Last(shape)), 1, stride);
    ScaleScale(Contiguous(Front(shape)), Last(shape), stride);
  }
}

/** Row-major shapes: element counts, mixed-radix positions and strides. */
module Shapes {
  import opened Arith

  type Shape = seq<nat>

  function Front<T>(s: seq<T>): seq<T>
    requires s != []
  {
    s[..|s| - 1]
  }

  function Last<T>(s: seq<T>): T
    requires s != []
  {
    s[|s| - 1]
  }

  /** An index into n places, counted from the end when negative. */
  function FromEnd(i: int, n: nat): int {
    if i < 0 then i + n else i
  }

  /** Number of elements a shape describes. */
  function Count(shape: Shape): nat {
    if shape == [] then 1 else
      MulNonneg(Count(Front(shape)), Last(shape));
      Count(Front(shape)) * Last(shape)
  }

  predicate Within(idx: seq<int>, shape: Shape) {
    |idx| == |shape| && forall d :: 0 <= d < |shape| ==> 0 <= idx[d] < shape[d]
  }

  /** Row-major position of a multi-index, by Horner's rule. */
  function Flat(idx: seq<int>, shape: Shape): int
    requires |idx| == |shape|
  {
    if shape == [] then 0 else Flat(Front(idx), Front(shape)) * Last(shape) + Last(idx)
  }

  /** The multi-index of a row-major position: its mixed-radix digits. */
  function Unflat(i: nat, shape: Shape): (idx: seq<int>)
    requires i < Count(shape)
    ensures |idx| == |shape|
    decreases |shape|
  {
    if shape == [] then [] else
      LastDigit(i, shape);
      Unflat(i / Last(shape), Front(shape)) + [i % Last(shape)]
  }

  lemma LastDigit(i: nat, shape: Shape)
    requires i < Count(shape) && shape != []
    ensures Last(shape) > 0 && 0 <= i / Last(shape) < Count(Front(shape)) && 0 <= i % Last(shape) < Last(shape)
    ensures i == (i / Last(shape)) * Last(shape) + i % Last(shape)
  {
    CountPositive(shape);
    CellPosition(i, Count(Front(shape)), Last(shape));
  }

  lemma CountPositive(shape: Shape)
    requires Count(shape) > 0 && shape != []
    ensures Last(shape) > 0 && Count(Front(shape)) > 0
  {
    ProductPositive(Count(Front(shape)), Last(shape));
  }

  lemma {:induction false} FlatInRange(idx: seq<int>, shape: Shape)
    requires Within(idx, shape)
    ensures 0 <= Flat(idx, shape) < Count(shape)
  {
    if shape != [] {
      FlatInRange(Front(idx), Front(shape));
      RadixBound(Flat(Front(idx), Front(shape)), Count(Front(shape)), Last(idx), Last(shape));
    }
  }

  /** Digits and positions are inverse to each other. */
  lemma {:induction false} UnflatOf(idx: seq<int>, shape: Shape)
    requires Within(idx, shape)
    ensures 0 <= Flat(idx, shape) < Count(shape)
    ensures Unflat(Flat(idx, shape), shape) == idx
  {
    FlatInRange(idx, shape);
    if shape != [] {
      FlatInRange(Front(idx), Front(shape));
      UnflatOf(Front(idx), Front(shape));
      RadixSplit(Flat(Front(idx), Front(shape)), Last(idx), Last(shape));
    }
  }

  lemma {:induction false} FlatOf(i: nat, shape: Shape)
    requires i < Count(shape)
    ensures Within(Unflat(i, shape), shape)
    ensures Flat(Unflat(i, shape), shape) == i
    decreases |shape|
  {
    if shape != [] {
      LastDigit(i, shape);
      var q := i / Last(shape);
      FlatOf(q, Front(shape));
      FlatSnoc(Unflat(q, Front(shape)), i % Last(shape), shape);
    }
  }

  lemma FlatSnoc(idx: seq<int>, r: int, shape: Shape)
    requires shape != [] && |idx| == |shape| - 1
    ensures Flat(idx + [r], shape) == Flat(idx, Front(shape)) * Last(shape) + r
    ensures Within(idx, Front(shape)) && 0 <= r < Last(shape) ==> Within(idx + [r], shape)
  {
    assert Front(idx + [r]) == idx;
    assert forall d :: 0 <= d < |shape| - 1 ==> Front(shape)[d] == shape[d];
  }

  lemma {:induction false} CountAllPositive(shape: Shape)
    ensures Count(shape) > 0 <==> forall d :: 0 <= d < |shape| ==> shape[d] > 0
  {
    if shape != [] {
      CountAllPositive(Front(shape));
      if Count(Front(shape)) > 0 && Last(shape) > 0 {
        MulMono(1, Count(Front(shape)), Last(shape));
      } else if Count(shape) > 0 {
        CountPositive(shape);
      }
      assert forall d :: 0 <= d < |shape| - 1 ==> Front(shape)[d] == shape[d];
    }
  }

  // ---------------------------------------------------------------- strides

  function Dot(idx: seq<int>, strides: seq<int>): int
    requires |idx| == |strides|
  {
    if idx == [] then 0 else Dot(Front(idx), Front(strides)) + Last(idx) * Last(strides)
  }

  function Scale(s: seq<int>, k: int): seq<int> {
    seq(|s|, i requires 0 <= i < |s| => s[i] * k)
  }

  function Zeros(n: nat): seq<int> {
    seq(n, _ => 0)
  }

  /** Offset to add per axis when walking a dense buffer. */
  function Contiguous(shape: Shape): (s: seq<int>)
    ensures |s| == |shape|
  {
    if shape == [] then [] else Scale(Contiguous(Front(shape)), Last(shape)) + [1]
  }

  lemma {:induction false} DotScale(idx: seq<int>, s: seq<int>, k: int)
    requires |idx| == |s|
    ensures Dot(idx, Scale(s, k)) == Dot(idx, s) * k
  {
    if idx != [] {
      DotScale(Front(idx), Front(s), k);
      assert Front(Scale(s, k)) == Scale(Front(s), k);
      MulAssoc(Last(idx), Last(s), k);
      MulDist(Dot(Front(idx), Front(s)), Last(idx) * Last(s), k);
    }
  }

  lemma DotSnoc(idx: seq<int>, s: seq<int>, v: int)
    requires |idx| == |s| + 1
    ensures Dot(idx, s + [v]) == Dot(Front(idx), s) + Last(idx) * v
  {
    assert Front(s + [v]) == s;
  }

  lemma {:induction false} DotZeros(idx: seq<int>)
    ensures Dot(idx, Zeros(|idx|)) == 0
  {
    if idx != [] {
      DotZeros(Front(idx));
      assert Front(Zeros(|idx|)) == Zeros(|idx| - 1);
    }
  }

  lemma {:induction false} DotOfZeros(s: seq<int>)
    ensures Dot(Zeros(|s|), s) == 0
  {
    if s != [] {
      DotOfZeros(Front(s));
      assert Front(Zeros(|s|)) == Zeros(|s| - 1);
    }
  }

  lemma {:induction false} DotUpdate(idx: seq<int>, s: seq<int>, d: nat, v: int)
    requires |idx| == |s| && d < |idx|
    ensures Dot(idx[d := v], s) == Dot(idx, s) + (v - idx[d]) * s[d]
  {
    var idx' := idx[d := v];
    if d == |idx| - 1 {
      assert Front(idx') == Front(idx);
      MulDist(v, idx[d], s[d]);
    } else {
      DotUpdate(Front(idx), Front(s), d, v);
      assert Front(idx') == Front(idx)[d := v];
    }
  }

  lemma {:induction false} DotAdd(a: seq<int>, b: seq<int>, s: seq<int>)
    requires |a| == |b| == |s|
    ensures Dot(Plus(a, b), s) == Dot(a, s) + Dot(b, s)
  {
    if a != [] {
      DotAdd(Front(a), Front(b), Front(s));
      assert Front(Plus(a, b)) == Plus(Front(a), Front(b));
      MulDist(Last(a), Last(b), Last(s));
    }
  }

  function Plus(a: seq<int>, b: seq<int>): seq<int>
    requires |a| == |b|
  {
    seq(|a|, i requires 0 <= i < |a| => a[i] + b[i])
  }

  /** Walking with contiguous strides computes row-major positions. */
  lemma {:induction false} DotContiguous(idx: seq<int>, shape: Shape)
    requires |idx| == |shape|
    ensures Dot(idx, Contiguous(shape)) == Flat(idx, shape)
  {
    if shape != [] {
      DotContiguous(Front(idx), Front(shape));
      var s := Contiguous(shape);
      assert Front(s) == Scale(Contiguous(Front(shape)), Last(shape));
      DotScale(Front(idx), Contiguous(Front(shape)), Last(shape));
    }
  }

  lemma ScaleScale(s: seq<int>, j: int, k: int)
    ensures Scale(Scale(s, j), k) == Scale(s, j * k)
  {
    forall i | 0 <= i < |s| ensures Scale(Scale(s, j), k)[i] == Scale(s, j * k)[i] {
      MulAssoc(s[i], j, k);
    }
  }

  lemma ScaleOne(s: seq<int>)
    ensures Scale(s, 1) == s
  {
  }

  lemma ScaleSnoc(s: seq<int>, v: int, k: int)
    ensures Scale(s + [v], k) == Scale(s, k) + [v * k]
  {
  }

  // ---------------------------------------------------------------- joining shapes

  lemma {:induction false} CountJoin(a: Shape, b: Shape)
    ensures Count(a + b) == Count(a) * Count(b)
  {
    if b == [] {
      assert a + b == a;
    } else {
      CountJoin(a, Front(b));
      assert Front(a + b) == a + Front(b);
      MulAssoc(Count(a), Count(Front(b)), Last(b));
    }
  }

  lemma CountAppend(a: Shape, n: nat)
    ensures Count(a + [n]) == Count(a) * n
  {
    assert Front(a + [n]) == a;
  }

  lemma FlatAppend(i: seq<int>, r: int, a: Shape, n: nat)
    requires |i| == |a|
    ensures Flat(i + [r], a + [n]) == Flat(i, a) * n + r
  {
    assert Front(i + [r]) == i && Front(a + [n]) == a;
  }

  lemma {:induction false} FlatJoin(i: seq<int>, a: Shape, j: seq<int>, b: Shape)
    requires |i| == |a| && |j| == |b|
    ensures Flat(i + j, a + b) == Flat(i, a) * Count(b) + Flat(j, b)
  {
    if b == [] {
      assert i + j == i && a + b == a;
    } else {
      FlatJoin(i, a, Front(j), Front(b));
      assert Front(i + j) == i + Front(j) && Front(a + b) == a + Front(b);
      MulAssoc(Flat(i, a), Count(Front(b)), Last(b));
      MulDist(Flat(i, a) * Count(Front(b)), Flat(Front(j), Front(b)), Last(b));
    }
  }

  // ---------------------------------------------------------------- four axes

  lemma CountFour(a: nat, b: nat, c: nat, d: nat)
    ensures Count([a, b, c, d]) == a * b * c * d
  {
    assert Front([a, b, c, d]) == [a, b, c] && Front([a, b, c]) == [a, b] && Front([a, b]) == [a] && Front([a]) == [];
    assert Count([a]) == a && Count([a, b]) == a * b && Count([a, b, c]) == a * b * c;
  }

  lemma FlatFour(i: seq<int>, s: Shape)
    requires |i| == |s| == 4
    ensures Flat(i, s) == ((i[0] * s[1] + i[1]) * s[2] + i[2]) * s[3] + i[3]
  {
    assert Front(s) == s[..3] && Front(s[..3]) == s[..2] && Front(s[..2]) == s[..1] && Front(s[..1]) == [];
    assert Front(i) == i[..3] && Front(i[..3]) == i[..2] && Front(i[..2]) == i[..1] && Front(i[..1]) == [];
    assert Flat(i[..1], s[..1]) == i[0];
    assert Flat(i[..2], s[..2]) == i[0] * s[1] + i[1];
    assert Flat(i[..3], s[..3]) == (i[0] * s[1] + i[1]) * s[2] + i[2];
  }
}

/** Stacking equally shaped tensors along a new axis. */
module Pack {
  import opened Arith
  import opened Wrappers
  import opened Shapes
  import opened Broadcast

  function PackShape(shape: Shape, axis: nat, n: nat): Shape
    requires axis <= |shape|
  {
    shape[..axis] + [n] + shape[axis..]
  }

  ghost predicate SameShapes(xs: seq<Tensor>) {
    forall i :: 0 <= i < |xs| ==> xs[i].Valid() && xs[i].shape == xs[0].shape
  }

  /** Row-major position, in the packed buffer, of element j of input i. */
  function PackedIndex(i: nat, j: nat, n: nat, inner: nat): nat
    requires inner > 0
  {
    MulNonneg(j / inner, n);
    MulNonneg((j / inner) * n + i, inner);
    ((j / inner) * n + i) * inner + j % inner
  }

  /** y interleaves the blocks of the inputs: block b of each input in turn, before block b + 1 of any. */
  ghost predicate Packs(xs: seq<Tensor>, axis: nat, y: Tensor)
    requires xs != [] && SameShapes(xs) && axis <= |xs[0].shape|
  {
    var inner := Count(xs[0].shape[axis..]);
    && y.Valid() && y.shape == PackShape(xs[0].shape, axis, |xs|)
    && (inner > 0 ==> forall i: nat, j: nat {:trigger PackedIndex(i, j, |xs|, inner)} ::
          i < |xs| && j < |xs[i].data| ==> ElementIs(y.data, PackedIndex(i, j, |xs|, inner), xs[i].data[j]))
  }

  ghost predicate ElementIs(s: seq<real>, p: nat, v: real) {
    p < |s| && s[p] == v
  }

  lemma PackCounts(shape: Shape, axis: nat, n: nat)
    requires axis <= |shape|
    ensures Count(shape) == Count(shape[..axis]) * Count(shape[axis..])
    ensures Count(PackShape(shape, axis, n)) == (Count(shape[..axis]) * n) * Count(shape[axis..])
  {
    assert shape[..axis] + shape[axis..] == shape;
    CountJoin(shape[..axis], shape[axis..]);
    CountThree(shape[..axis], n, shape[axis..], Count(shape[..axis]) * n);
  }

  lemma CountThree(front: Shape, n: nat, back: Shape, blocks: int)
    requires blocks == Count(front) * n
    ensures Count(front + [n] + back) == blocks * Count(back)
  {
    CountAppend(front, n);
    CountJoin(front + [n], back);
  }

  /** The first n blocks of the interleaving are in place. */
  ghost predicate Filled(xs: seq<Tensor>, inner: nat, ys: seq<real>, blocks: nat) {
    inner > 0 && xs != [] ==> forall p: nat {:trigger ys[p]} :: p < |ys| && p / inner < blocks ==>
        Interleaved(xs, inner, p, ys[p])
  }

  ghost predicate Interleaved(xs: seq<Tensor>, inner: nat, p: nat, v: real)
    requires inner > 0 && xs != []
  {
    var block := p / inner;
    ElementIs(xs[block % |xs|].data, BlockStart(block / |xs|, inner) + p % inner, v)
  }

  function BlockStart(b: nat, inner: nat): nat {
    MulNonneg(b, inner);
    b * inner
  }

  /** Copies the first |block| values into the array from a position on. */
  method CopyInto(y: array<real>, start: nat, block: seq<real>)
    requires start + |block| <= y.Length
    modifies y
    ensures y[..] == old(y[..])[..start] + block + old(y[..])[start + |block|..]
  {
    for k := 0 to |block|
      invariant y[..] == old(y[..])[..start] + block[..k] + old(y[..])[start + k..]
    {
      y[start + k] := block[k];
    }
  }

  method Stack(xs: seq<Tensor>, declared: nat, axis0: int) returns (r: Option<Tensor>)
    requires forall i :: 0 <= i < |xs| ==> xs[i].Valid()
    ensures r.None? == (
      || xs == [] || (declared != 0 && declared != |xs|)
      || (exists i :: 0 <= i < |xs| && xs[i].shape != xs[0].shape)
      || !(0 <= FromEnd(axis0, |xs[0].shape| + 1) <= |xs[0].shape|))
    ensures r.Some? ==> SameShapes(xs) && Packs(xs, FromEnd(axis0, |xs[0].shape| + 1), r.value)
  {
    if xs == [] || (declared != 0 && declared != |xs|) {
      return None;
    }
    var base := xs[0].shape;
    for i := 1 to |xs|
      invariant forall k :: 0 <= k < i ==> xs[k].shape == base
    {
      if xs[i].shape != base {
        return None;
      }
    }
    var axis := FromEnd(axis0, |base| + 1);
    if axis < 0 || axis > |base| {
      return None;
    }
    var shape := base[..axis] + [|xs|] + base[axis..];
    var outer, inner := Count(base[..axis]), Count(base[axis..]);
    PackCounts(base, axis, |xs|);
    var y := Interleave(xs, outer, inner, Count(shape));
    PacksFromFilled(xs, axis, y[..], outer, inner);
    return Some(Tensor(shape, y[..]));
  }

  method Interleave(xs: seq<Tensor>, outer: nat, inner: nat, size: nat) returns (y: array<real>)
    requires xs != [] && size == (outer * |xs|) * inner
    requires forall i :: 0 <= i < |xs| ==> |xs[i].data| == outer * inner
    ensures y.Length == size && Filled(xs, inner, y[..], outer * |xs|)
  {
    y := new real[size];
    FilledNone(xs, inner, y[..]);
    for b := 0 to outer
      invariant y.Length == size && Filled(xs, inner, y[..], BlockStart(b, |xs|))
    {
      for i := 0 to |xs|
        invariant y.Length == size && Filled(xs, inner, y[..], BlockStart(b, |xs|) + i)
      {
        ghost var before := y[..];
        BlockFits(outer, inner, |xs|, b, i);
        var start := (b * |xs| + i) * inner;
        CopyInto(y, start, xs[i].data[b * inner..(b + 1) * inner]);
        FillBlock(xs, inner, before, y[..], b, i);
      }
      MulDist(b, 1, |xs|);
    }
  }

  lemma FilledNone(xs: seq<Tensor>, inner: nat, ys: seq<real>)
    ensures Filled(xs, inner, ys, 0)
  {
    if inner > 0 {
      forall p: nat ensures p / inner >= 0 {
      }
    }
  }

  lemma BlockFits(outer: nat, inner: nat, n: nat, b: nat, i: nat)
    requires b < outer && i < n
    ensures 0 <= b * inner <= (b + 1) * inner <= outer * inner && (b + 1) * inner - b * inner == inner
    ensures 0 <= (b * n + i) * inner && (b * n + i) * inner + inner <= (outer * n) * inner
  {
    MulNonneg(b, inner);
    MulMono(b + 1, outer, inner);
    MulDist(b, 1, inner);
    RadixBound(b, outer, i, n);
    MulNonneg(b * n + i, inner);
    MulMono(b * n + i + 1, outer * n, inner);
    MulDist(b * n + i, 1, inner);
  }

  lemma FillBlock(xs: seq<Tensor>, inner: nat, before: seq<real>, ys: seq<real>, b: nat, i: nat)
    requires i < |xs| && 0 <= b * inner && b * inner + inner == (b + 1) * inner <= |xs[i].data|
    requires var start := (b * |xs| + i) * inner;
             && 0 <= start && start + inner <= |before|
             && ys == before[..start] + xs[i].data[b * inner..(b + 1) * inner] + before[start + inner..]
    requires Filled(xs, inner, before, BlockStart(b, |xs|) + i)
    ensures Filled(xs, inner, ys, BlockStart(b, |xs|) + i + 1)
  {
    if inner > 0 {
      var block := BlockStart(b, |xs|) + i;
      var start := block * inner;
      forall p: nat | p < |ys| && p / inner < block + 1 ensures Interleaved(xs, inner, p, ys[p]) {
        BlockOf(p, inner, block);
        if p / inner == block {
          RadixSplit(b, i, |xs|);
          assert ys[p] == xs[i].data[b * inner + (p - start)];
        } else {
          assert ys[p] == before[p];
        }
      }
    }
  }

  lemma BlockOf(p: nat, inner: nat, block: nat)
    requires inner > 0 && p / inner <= block
    ensures p / inner == block ==> p == block * inner + p % inner
    ensures p / inner < block ==> p < block * inner
  {
    var q := p / inner;
    assert p == inner * q + p % inner;
    if q < block {
      MulMono(q + 1, block, inner);
      MulDist(q, 1, inner);
    }
  }

  lemma PacksFromFilled(xs: seq<Tensor>, axis: nat, ys: seq<real>, outer: nat, inner: nat)
    requires xs != [] && SameShapes(xs) && axis <= |xs[0].shape|
    requires outer == Count(xs[0].shape[..axis]) && inner == Count(xs[0].shape[axis..])
    requires |ys| == Count(PackShape(xs[0].shape, axis, |xs|)) && Filled(xs, inner, ys, outer * |xs|)
    ensures Packs(xs, axis, Tensor(PackShape(xs[0].shape, axis, |xs|), ys))
  {
    PackCounts(xs[0].shape, axis, |xs|);
    if inner > 0 {
      forall i: nat, j: nat | i < |xs| && j < |xs[i].data|
        ensures ElementIs(ys, PackedIndex(i, j, |xs|, inner), xs[i].data[j])
      {
        assert xs[i].shape == xs[0].shape;
        PackedPosition(i, j, |xs|, outer, inner);
        var p := PackedIndex(i, j, |xs|, inner);
        assert Interleaved(xs, inner, p, ys[p]);
      }
    }
  }

  lemma PackedPosition(i: nat, j: nat, n: nat, outer: nat, inner: nat)
    requires i < n && inner > 0 && j < outer * inner
    ensures var p := PackedIndex(i, j, n, inner);
            && p < (outer * n) * inner && p / inner < outer * n && p % inner == j % inner
            && (p / inner) % n == i && (p / inner) / n == j / inner
            && BlockStart(j / inner, inner) + j % inner == j
  {
    CellPosition(j, outer, inner);
    var b := j / inner;
    MulNonneg(b, n);
    RadixBound(b, outer, i, n);
    RadixSplit(b, i, n);
    RadixSplit(b * n + i, j % inner, inner);
    RadixBound(b * n + i, outer * n, j % inner, inner);
  }
}

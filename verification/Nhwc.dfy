/** Row-major NHWC output buffers, addressed by position and by time row. */
module Nhwc {
  import opened Arith

  /** Number of values in an image batch. */
  function Count(batch: nat, oh: nat, ow: nat, oc: nat): (n: nat) {
    MulNonneg(batch, oh);
    MulNonneg(batch * oh, ow);
    MulNonneg(batch * oh * ow, oc);
    batch * oh * ow * oc
  }

  /** The value at flat position i, from its batch, row, column and channel. */
  function Cell(oh: nat, ow: nat, oc: nat, at: (nat, nat, nat, nat) -> real, i: nat): real {
    if oh == 0 || ow == 0 || oc == 0 then 0.0 else
      QuotientNonneg(i, oc);
      var f, q := i % oc, i / oc;
      QuotientNonneg(q, ow);
      var ox, r := q % ow, q / ow;
      QuotientNonneg(r, oh);
      at(r / oh, r % oh, ox, f)
  }

  /** The whole buffer. */
  function Image(batch: nat, oh: nat, ow: nat, oc: nat, at: (nat, nat, nat, nat) -> real): (y: seq<real>)
    ensures |y| == Count(batch, oh, ow, oc)
  {
    seq(Count(batch, oh, ow, oc), i requires 0 <= i < Count(batch, oh, ow, oc) => Cell(oh, ow, oc, at, i))
  }

  lemma CellAt(oh: nat, ow: nat, oc: nat, at: (nat, nat, nat, nat) -> real, b: nat, oy: nat, ox: nat, f: nat, i: int)
    requires oy < oh && ox < ow && f < oc
    requires i == ((b * oh + oy) * ow + ox) * oc + f
    ensures 0 <= i && Cell(oh, ow, oc, at, i) == at(b, oy, ox, f)
  {
    MulNonneg(b, oh);
    MulNonneg(b * oh + oy, ow);
    MulNonneg((b * oh + oy) * ow + ox, oc);
    RadixSplit((b * oh + oy) * ow + ox, f, oc);
    RadixSplit(b * oh + oy, ox, ow);
    RadixSplit(b, oy, oh);
  }

  lemma PositionInRange(batch: nat, oh: nat, ow: nat, oc: nat, b: nat, oy: nat, ox: nat, f: nat)
    requires b < batch && oy < oh && ox < ow && f < oc
    ensures 0 <= ((b * oh + oy) * ow + ox) * oc + f < Count(batch, oh, ow, oc)
  {
    RadixBound(b, batch, oy, oh);
    RadixBound(b * oh + oy, batch * oh, ox, ow);
    RadixBound((b * oh + oy) * ow + ox, batch * oh * ow, f, oc);
  }

  /** Position of value j of time row oy in a one-batch image. */
  lemma RowCell(oh: nat, ow: nat, oc: nat, at: (nat, nat, nat, nat) -> real, oy: nat, j: nat)
    requires oy < oh && oc > 0 && j < ow * oc
    ensures 0 <= j / oc && 0 <= j % oc
    ensures 0 <= oy * (ow * oc) + j < Count(1, oh, ow, oc)
    ensures Cell(oh, ow, oc, at, oy * (ow * oc) + j) == at(0, oy, j / oc, j % oc)
  {
    ColumnInRange(j, ow, oc);
    CellIndex(oy, ow, oc, j / oc, j % oc);
    PositionInRange(1, oh, ow, oc, 0, oy, j / oc, j % oc);
    CellAt(oh, ow, oc, at, 0, oy, j / oc, j % oc, oy * (ow * oc) + j);
  }

  /** Value j of output row o of a one-batch image. */
  function RowValue(oc: nat, at: (nat, nat, nat, nat) -> real, o: nat, j: nat): real {
    if oc == 0 then 0.0 else at(0, o, j / oc, j % oc)
  }

  /** A one-batch image, row by row. */
  lemma ImageByRows(oh: nat, ow: nat, oc: nat, at: (nat, nat, nat, nat) -> real, width: nat, i: nat)
    requires width == ow * oc && width > 0 && i < oh * width
    ensures |Image(1, oh, ow, oc, at)| == oh * width
    ensures 0 <= i / width && 0 <= i % width
    ensures Image(1, oh, ow, oc, at)[i] == RowValue(oc, at, i / width, i % width)
  {
    MulAssoc(oh, ow, oc);
    CellPosition(i, oh, width);
    RowCell(oh, ow, oc, at, i / width, i % width);
  }

  lemma ImageSize(oh: nat, ow: nat, oc: nat, at: (nat, nat, nat, nat) -> real, width: nat)
    requires width == ow * oc
    ensures |Image(1, oh, ow, oc, at)| == oh * width
  {
    MulAssoc(oh, ow, oc);
  }

  /** The first n positions of y hold their values. */
  ghost predicate Filled(y: array<real>, n: int, oh: nat, ow: nat, oc: nat, at: (nat, nat, nat, nat) -> real)
    reads y
  {
    && 0 <= n <= y.Length
    && forall i :: 0 <= i < n ==> y[i] == Cell(oh, ow, oc, at, i)
  }

  lemma RowDone(r: int, ow: int, oc: int)
    ensures (r * ow + ow) * oc == (r + 1) * ow * oc
  {
    MulDist(r, 1, ow);
  }

  lemma ImageDone(b: int, oh: int, ow: int, oc: int)
    ensures (b * oh + oh) * ow * oc == (b + 1) * oh * ow * oc
  {
    MulDist(b, 1, oh);
  }
}

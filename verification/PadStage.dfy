/** Zero padding inside rows as a stream stage, with paddings of either sign. */
module PadStage {
  import opened Arith
  import opened Wrappers
  import opened Windows
  import opened Stream
  import opened TimeStage
  import opened Shapes
  import O = Odometer
  import P = Pad
  import T = Transpose

  /** Rows of width * channels values, and the padding before and after each of the four axes. */
  datatype Padding = Padding(width: nat, channels: nat, p: seq<int>)
  {
    function RowSize(): nat {
      MulNonneg(width, channels);
      width * channels
    }

    function OutWidth(): int
      requires |p| >= 8
    {
      p[4] + width + p[5]
    }

    function OutChannels(): int
      requires |p| >= 8
    {
      p[6] + channels + p[7]
    }

    function OutRow(): int
      requires |p| >= 8
    {
      OutWidth() * OutChannels()
    }

    function Batches(): int
      requires |p| >= 8
    {
      p[0] + 1 + p[1]
    }

    /** Where the value at a column and channel of a row is written, counted from where its output row begins. */
    function At(jw: int, jc: int): int
      requires |p| >= 8
    {
      (p[4] + jw) * OutChannels() + (p[6] + jc)
    }
  }

  /** What validation asks: no padding along time. The kernel asks for the rest of the values. */
  predicate PaddingOk(d: Padding) {
    d.RowSize() > 0 && |d.p| >= 8 && d.p[2] == 0 && d.p[3] == 0
  }

  function InputShape(d: Padding, n: nat): (s: Shape)
    ensures |s| == 4
  {
    [1, n, d.width, d.channels]
  }

  /** The output has a shape. */
  predicate Shaped(d: Padding)
    requires |d.p| >= 8
  {
    d.Batches() >= 0 && d.OutWidth() >= 0 && d.OutChannels() >= 0
  }

  function OutputShape(d: Padding, n: nat): Shape
    requires PaddingOk(d) && Shaped(d)
  {
    [d.Batches(), n, d.OutWidth(), d.OutChannels()]
  }

  lemma ShapeIs(d: Padding, n: nat)
    requires PaddingOk(d)
    ensures Count(InputShape(d, n)) == n * d.RowSize()
    ensures P.Describes(P.Extents(InputShape(d, n), d.p)) <==> Shaped(d)
    ensures Shaped(d) ==> P.Extents(InputShape(d, n), d.p) == OutputShape(d, n)
  {
    CountFour(1, n, d.width, d.channels);
    MulAssoc(n, d.width, d.channels);
    var x := P.Extents(InputShape(d, n), d.p);
    assert x == [d.Batches(), n, d.OutWidth(), d.OutChannels()];
    assert P.Describes(x) <==> x[0] >= 0 && x[1] >= 0 && x[2] >= 0 && x[3] >= 0;
  }

  lemma OutputSize(d: Padding, n: nat)
    requires PaddingOk(d) && Shaped(d)
    ensures d.OutRow() >= 0 && Count(OutputShape(d, n)) == d.Batches() * n * d.OutRow()
  {
    CountFour(d.Batches(), n, d.OutWidth(), d.OutChannels());
    MulAssoc(d.Batches() * n, d.OutWidth(), d.OutChannels());
    MulNonneg(d.OutWidth(), d.OutChannels());
  }

  /** The kernel on n rows; a write outside the output ends it. */
  function PadKernel(d: Padding, n: nat, flat: seq<real>): KernelResult<real>
    requires PaddingOk(d)
  {
    if |flat| != n * d.RowSize() then Failed else
      ShapeIs(d, n);
      var s := InputShape(d, n);
      if !P.Describes(P.Extents(s, d.p)) || P.Spills(s, d.p) then Failed else
        var out: Shape := P.Extents(s, d.p);
        var os := Contiguous(out);
        Produced(out[1], P.Written(flat, Count(out), s, os, Dot(P.Before(d.p, 4), os), Count(s)))
  }

  // ---------------------------------------------------------------- where values are written

  /** Where row o's value at a column and channel is written. */
  function WriteAt(d: Padding, n: nat, o: nat, jw: nat, jc: nat): int
    requires |d.p| >= 8
  {
    (d.p[0] * n + o) * d.OutRow() + d.At(jw, jc)
  }

  function Element(d: Padding, o: nat, jw: nat, jc: nat): int {
    o * d.RowSize() + (jw * d.channels + jc)
  }

  lemma ElementInside(d: Padding, n: nat, o: nat, jw: nat, jc: nat)
    requires o < n && jw < d.width && jc < d.channels
    ensures 0 <= jw * d.channels + jc < d.RowSize() && 0 <= Element(d, o, jw, jc) < n * d.RowSize()
  {
    RadixBound(jw, d.width, jc, d.channels);
    RadixBound(o, n, jw * d.channels + jc, d.RowSize());
  }

  /** The odometer walks there. */
  lemma WriteIs(d: Padding, n: nat, o: nat, jw: nat, jc: nat)
    requires PaddingOk(d) && Shaped(d) && o < n && jw < d.width && jc < d.channels
    ensures var s, os := InputShape(d, n), Contiguous(OutputShape(d, n));
            && 0 <= Element(d, o, jw, jc) < Count(s)
            && P.WriteAt(Element(d, o, jw, jc), s, os, Dot(P.Before(d.p, 4), os)) == WriteAt(d, n, o, jw, jc)
  {
    var s, out := InputShape(d, n), OutputShape(d, n);
    var before := P.Before(d.p, 4);
    var idx: seq<int> := [0, o, jw, jc];
    ShapeIs(d, n);
    ElementInside(d, n, o, jw, jc);
    ElementIndex(d, n, o, jw, jc);
    assert before == [d.p[0], 0, d.p[4], d.p[6]];
    DotAdd(before, idx, Contiguous(out));
    DotContiguous(Plus(before, idx), out);
    assert Plus(before, idx) == [d.p[0], o as int, d.p[4] + jw, d.p[6] + jc];
    FlatFour(Plus(before, idx), out);
    RadixSum(d.p[0] * n + o, d.OutWidth(), d.OutChannels(), d.p[4] + jw, d.p[6] + jc);
  }

  lemma ElementIndex(d: Padding, n: nat, o: nat, jw: nat, jc: nat)
    requires PaddingOk(d) && o < n && jw < d.width && jc < d.channels
    ensures 0 <= Element(d, o, jw, jc) < Count(InputShape(d, n))
    ensures Unflat(Element(d, o, jw, jc), InputShape(d, n)) == [0, o, jw, jc]
  {
    var s := InputShape(d, n);
    var idx: seq<int> := [0, o, jw, jc];
    assert Within(idx, s);
    UnflatOf(idx, s);
    FlatFour(idx, s);
    CellIndex(o, d.width, d.channels, jw, jc);
  }

  lemma RadixSum(q: int, w: int, c: int, x: int, y: int)
    ensures (q * w + x) * c + y == q * (w * c) + (x * c + y)
  {
    MulAssoc(q, w, c);
    MulDist(q * w, x, c);
  }

  /** Values of a row are written in order. */
  lemma WritesInOrder(d: Padding, jw: nat, jc: nat)
    requires PaddingOk(d) && d.OutChannels() >= 0 && jw < d.width && jc < d.channels
    ensures d.At(0, 0) <= d.At(jw, jc) <= d.At(d.width - 1, d.channels - 1)
  {
    MulMono(d.p[4], d.p[4] + jw, d.OutChannels());
    MulMono(d.p[4] + jw, d.p[4] + (d.width - 1), d.OutChannels());
  }

  /** Every position of the input is some row's value at some column and channel. */
  lemma ElementOf(d: Padding, n: nat, i: nat) returns (o: nat, jw: nat, jc: nat)
    requires PaddingOk(d) && i < n * d.RowSize()
    ensures o < n && jw < d.width && jc < d.channels && i == Element(d, o, jw, jc)
    ensures o == i / d.RowSize() && jw * d.channels + jc == i % d.RowSize()
  {
    CellPosition(i, n, d.RowSize());
    ProductPositive(d.width, d.channels);
    ColumnInRange(i % d.RowSize(), d.width, d.channels);
    o, jw, jc := i / d.RowSize(), (i % d.RowSize()) / d.channels, (i % d.RowSize()) % d.channels;
  }

  /** Every value is written in the output for n rows. */
  ghost predicate Lands(d: Padding, n: nat)
    requires PaddingOk(d)
  {
    && Shaped(d)
    && forall o: nat, jw: nat, jc: nat {:trigger WriteAt(d, n, o, jw, jc)} ::
         o < n && jw < d.width && jc < d.channels ==>
         0 <= WriteAt(d, n, o, jw, jc) < d.Batches() * n * d.OutRow()
  }

  lemma ProducedIff(d: Padding, n: nat, flat: seq<real>)
    requires PaddingOk(d) && |flat| == n * d.RowSize()
    ensures PadKernel(d, n, flat).Produced? <==> Lands(d, n)
  {
    ShapeIs(d, n);
    if Shaped(d) {
      var s, out := InputShape(d, n), OutputShape(d, n);
      var os := Contiguous(out);
      OutputSize(d, n);
      T.ContiguousNonneg(out);
      P.EndsDecide(s, os, Dot(P.Before(d.p, 4), os), Count(out));
      LandsMeans(d, n);
    }
  }

  lemma LandsMeans(d: Padding, n: nat)
    requires PaddingOk(d) && Shaped(d)
    ensures var s, os := InputShape(d, n), Contiguous(OutputShape(d, n));
            Lands(d, n) <==> P.Lands(s, os, Dot(P.Before(d.p, 4), os), Count(OutputShape(d, n)))
  {
    var s, os := InputShape(d, n), Contiguous(OutputShape(d, n));
    var base := Dot(P.Before(d.p, 4), os);
    ShapeIs(d, n);
    OutputSize(d, n);
    if Lands(d, n) {
      forall i: nat | i < Count(s) ensures 0 <= P.WriteAt(i, s, os, base) < Count(OutputShape(d, n)) {
        var o, jw, jc := ElementOf(d, n, i);
        WriteIs(d, n, o, jw, jc);
      }
    }
    if P.Lands(s, os, base, Count(OutputShape(d, n))) {
      forall o: nat, jw: nat, jc: nat | o < n && jw < d.width && jc < d.channels
        ensures 0 <= WriteAt(d, n, o, jw, jc) < Count(OutputShape(d, n))
      {
        WriteIs(d, n, o, jw, jc);
      }
    }
  }

  // ---------------------------------------------------------------- what is written

  /** The last of the first k elements that is written at a position. */
  function LastOf(d: Padding, n: nat, at: int, k: nat): (i: Option<nat>)
    requires PaddingOk(d) && k <= n * d.RowSize()
    ensures i.Some? ==> i.value < k
  {
    if k == 0 then None
    else if WriteOf(d, n, k - 1) == at then Some(k - 1)
    else LastOf(d, n, at, k - 1)
  }

  function WriteOf(d: Padding, n: nat, i: nat): int
    requires PaddingOk(d)
  {
    QuotientNonneg(i, d.RowSize());
    (d.p[0] * n + i / d.RowSize()) * d.OutRow() + RowAt(d, i % d.RowSize())
  }

  function RowAt(d: Padding, t: nat): int
    requires PaddingOk(d)
  {
    ProductPositive(d.width, d.channels);
    d.At(t / d.channels, t % d.channels)
  }

  lemma RowAtIs(d: Padding, jw: nat, jc: nat)
    requires PaddingOk(d) && jc < d.channels
    ensures 0 <= jw * d.channels + jc && RowAt(d, jw * d.channels + jc) == d.At(jw, jc)
  {
    MulNonneg(jw, d.channels);
    RadixSplit(jw, jc, d.channels);
  }

  lemma WriteOfIs(d: Padding, n: nat, i: nat)
    requires PaddingOk(d) && Shaped(d) && i < n * d.RowSize()
    ensures var s, os := InputShape(d, n), Contiguous(OutputShape(d, n));
            i < Count(s) && P.WriteAt(i, s, os, Dot(P.Before(d.p, 4), os)) == WriteOf(d, n, i)
  {
    var o, jw, jc := ElementOf(d, n, i);
    ShapeIs(d, n);
    WriteIs(d, n, o, jw, jc);
    RowAtIs(d, jw, jc);
  }

  lemma {:induction false} LastOfIs(d: Padding, n: nat, at: int, k: nat, os: seq<int>, base: int)
    requires PaddingOk(d) && Shaped(d) && k <= n * d.RowSize() == Count(InputShape(d, n))
    requires os == Contiguous(OutputShape(d, n)) && base == Dot(P.Before(d.p, 4), os)
    ensures P.LastAt(at, InputShape(d, n), os, base, k) == LastOf(d, n, at, k)
  {
    if k > 0 {
      LastOfIs(d, n, at, k - 1, os, base);
      WriteOfIs(d, n, k - 1);
    }
  }

  /** The output at a position is the last value written there. */
  lemma KernelAt(d: Padding, n: nat, flat: seq<real>, at: nat)
    requires PaddingOk(d) && |flat| == n * d.RowSize() && Lands(d, n) && at < d.Batches() * n * d.OutRow()
    ensures var k, i := PadKernel(d, n, flat), LastOf(d, n, at, n * d.RowSize());
            && k.Produced? && k.rows == n && |k.flat| == d.Batches() * n * d.OutRow()
            && k.flat[at] == if i.Some? then flat[i.value] else 0.0
  {
    ProducedIff(d, n, flat);
    ShapeIs(d, n);
    OutputSize(d, n);
    var os := Contiguous(OutputShape(d, n));
    LastOfIs(d, n, at, n * d.RowSize(), os, Dot(P.Before(d.p, 4), os));
  }

  lemma KernelSize(d: Padding, n: nat, flat: seq<real>)
    requires PaddingOk(d) && |flat| == n * d.RowSize() && Lands(d, n)
    ensures var k := PadKernel(d, n, flat); k.Produced? && k.rows == n && |k.flat| == d.Batches() * n * d.OutRow()
  {
    ProducedIff(d, n, flat);
    ShapeIs(d, n);
    OutputSize(d, n);
  }

  // ---------------------------------------------------------------- one row

  /** No padding along the batch axis. */
  predicate OneBatch(d: Padding)
    requires |d.p| >= 8
  {
    d.p[0] == 0 && d.p[1] == 0
  }

  /** What is written for a row stays inside its output row. */
  predicate Inside(d: Padding)
    requires PaddingOk(d)
  {
    && d.OutWidth() >= 0 && d.OutChannels() >= 0
    && 0 <= d.At(0, 0) && d.At(d.width - 1, d.channels - 1) < d.OutRow()
  }

  lemma InsideRow(d: Padding, t: nat)
    requires PaddingOk(d) && Inside(d) && t < d.RowSize()
    ensures 0 <= RowAt(d, t) < d.OutRow()
  {
    ProductPositive(d.width, d.channels);
    ColumnInRange(t, d.width, d.channels);
    WritesInOrder(d, t / d.channels, t % d.channels);
  }

  lemma InsideLands(d: Padding, n: nat)
    requires PaddingOk(d) && Inside(d) && OneBatch(d)
    ensures Lands(d, n) && d.OutRow() > 0
  {
    ProductPositive(d.width, d.channels);
    WritesInOrder(d, 0, 0);
    forall o: nat, jw: nat, jc: nat | o < n && jw < d.width && jc < d.channels
      ensures 0 <= WriteAt(d, n, o, jw, jc) < n * d.OutRow()
    {
      WritesInOrder(d, jw, jc);
      RadixBound(o, n, d.At(jw, jc), d.OutRow());
      assert d.p[0] * n == 0;
    }
  }

  /** The last of the first t values of a row that is written at position j of its output row. */
  function RowLast(d: Padding, j: int, t: nat): (i: Option<nat>)
    requires PaddingOk(d)
    ensures i.Some? ==> i.value < t
  {
    if t == 0 then None else if RowAt(d, t - 1) == j then Some(t - 1) else RowLast(d, j, t - 1)
  }

  function ValueAt(d: Padding, flat: seq<real>, o: nat, j: nat): real {
    if PaddingOk(d) && RowLast(d, j, d.RowSize()).Some? then
      var x := o * d.RowSize() + RowLast(d, j, d.RowSize()).value;
      if 0 <= x < |flat| then flat[x] else 0.0
    else 0.0
  }

  function PadCells(d: Padding): RowKernel
    requires PaddingOk(d) && Inside(d)
  {
    MulNonneg(d.OutWidth(), d.OutChannels());
    RowKernel(d.RowSize(), 1, 1, d.OutRow(), (n: nat, flat: seq<real>, o: nat, j: nat) => ValueAt(d, flat, o, j))
  }

  lemma PadIsLocal(d: Padding)
    requires PaddingOk(d) && Inside(d) && OneBatch(d)
    ensures PadCells(d).Valid() && PadCells(d).Local()
  {
    var k := PadCells(d);
    InsideLands(d, 1);
    forall n: nat, flat: seq<real>, o: nat, j: nat, piece: seq<real>
      | |flat| == n * k.rowSize && o * k.consume + k.need <= n && j < k.width && k.Piece(flat, o, piece)
      ensures k.cell(n, flat, o, j) == k.cell(k.need, piece, 0, j)
    {
      RowPiece(k, n, flat, o, piece);
      assert 0 * k.rowSize == 0;
    }
  }

  function Shifted(i: Option<nat>, start: nat): Option<nat> {
    if i.Some? then Some(start + i.value) else None
  }

  /** Among the elements of row o and after it, only row o's are written inside its output row. */
  lemma {:induction false} LastInRow(d: Padding, n: nat, o: nat, j: nat, start: nat, k: nat)
    requires PaddingOk(d) && Inside(d) && OneBatch(d) && o < n && j < d.OutRow()
    requires start == o * d.RowSize() && k <= n * d.RowSize() && 0 <= o * d.OutRow()
    ensures LastOf(d, n, o * d.OutRow() + j, k)
         == if k <= start then None
             else Shifted(RowLast(d, j, if k - start <= d.RowSize() then k - start else d.RowSize()), start)
  {
    if k > 0 {
      LastInRow(d, n, o, j, start, k - 1);
      WriteInRow(d, n, o, j, start, k - 1);
    }
  }

  lemma WriteInRow(d: Padding, n: nat, o: nat, j: nat, start: nat, i: nat)
    requires PaddingOk(d) && Inside(d) && OneBatch(d) && j < d.OutRow() && start == o * d.RowSize()
    ensures WriteOf(d, n, i) == o * d.OutRow() + j <==> start <= i < start + d.RowSize() && RowAt(d, i - start) == j
  {
    var r, s := d.RowSize(), d.OutRow();
    var q, t := i / r, i % r;
    QuotientNonneg(i, r);
    assert i == q * r + t;
    InsideRow(d, t);
    assert d.p[0] * n == 0;
    SameDigits(q, t, o, i - start, r);
    if q * s + RowAt(d, t) == o * s + j {
      RadixSplit(q, RowAt(d, t), s);
      RadixSplit(o, j, s);
    }
  }

  /** An element lies in row o exactly when its quotient is o, and then its remainder is its place there. */
  lemma SameDigits(q: nat, t: nat, o: nat, rest: int, r: nat)
    requires t < r && q * r + t == o * r + rest
    ensures 0 <= rest < r <==> q == o
    ensures q == o ==> rest == t
  {
    if 0 <= rest < r {
      RadixSplit(q, t, r);
      RadixSplit(o, rest, r);
    }
  }

  lemma OutputIsCells(d: Padding, n: nat, flat: seq<real>)
    requires PaddingOk(d) && Inside(d) && OneBatch(d) && |flat| == n * d.RowSize()
    ensures PadKernel(d, n, flat) == Produced(n, PadCells(d).Cells(n, flat, n))
  {
    var k, y := PadCells(d), PadKernel(d, n, flat);
    InsideLands(d, n);
    KernelSize(d, n, flat);
    assert d.Batches() * n * d.OutRow() == n * d.OutRow();
    CellsLength(k, n, flat, n);
    forall i | 0 <= i < |y.flat| ensures y.flat[i] == k.Cells(n, flat, n)[i] {
      OutputCell(d, n, flat, i);
    }
    assert y.flat == k.Cells(n, flat, n);
  }

  lemma OutputCell(d: Padding, n: nat, flat: seq<real>, i: nat)
    requires PaddingOk(d) && Inside(d) && OneBatch(d) && |flat| == n * d.RowSize() && d.OutRow() > 0 && Lands(d, n)
    requires i < n * d.OutRow() && i < |PadCells(d).Cells(n, flat, n)|
    requires PadKernel(d, n, flat).Produced? && i < |PadKernel(d, n, flat).flat|
    ensures PadKernel(d, n, flat).flat[i] == PadCells(d).Cells(n, flat, n)[i]
  {
    assert d.Batches() * n * d.OutRow() == n * d.OutRow();
    KernelAt(d, n, flat, i);
    CellsAt(PadCells(d), n, flat, n, i);
    CellPosition(i, n, d.OutRow());
    var o, j := i / d.OutRow(), i % d.OutRow();
    MulNonneg(o, d.RowSize());
    MulNonneg(o, d.OutRow());
    LastInRow(d, n, o, j, o * d.RowSize(), n * d.RowSize());
    RowInside(o, n, d.RowSize());
  }

  lemma RowInside(o: nat, n: nat, r: nat)
    requires o < n
    ensures 0 <= o * r && o * r + r <= n * r
  {
    MulNonneg(o, r);
    MulMono(o + 1, n, r);
    MulDist(o, 1, r);
  }

  // ---------------------------------------------------------------- the stage

  /** The stage configured for a padding: it needs and consumes one row. */
  ghost predicate RunsPad(st: Stage<real>, d: Padding) {
    && PaddingOk(d)
    && st.rowSize == d.RowSize() && st.need == 1 && st.consume == 1
    && forall n: nat, flat: seq<real> {:trigger st.kernel(n, flat)} :: st.kernel(n, flat) == PadKernel(d, n, flat)
  }

  /** Padding that stays inside rows is a window operator over single rows. */
  lemma PadStageComputes(st: Stage<real>, d: Padding)
    requires RunsPad(st, d) && OneBatch(d) && Inside(d)
    ensures Computes(st, PadCells(d).AsWindow(), d.OutRow())
  {
    var k := PadCells(d);
    PadIsLocal(d);
    forall n: nat, flat: seq<real> | |flat| == n * k.rowSize && n >= 1
        ensures st.kernel(n, flat) == Produced(n, k.Cells(n, flat, n)) {
      OutputIsCells(d, n, flat);
    }
    RowLocalComputes(st, k);
  }

  function Row(d: Padding, v: real): (r: seq<real>)
    ensures |r| == d.RowSize()
  {
    seq(d.RowSize(), _ => v)
  }

  function Zeroes(d: Padding, n: nat): (r: seq<real>)
    ensures |r| == n * d.RowSize()
  {
    MulNonneg(n, d.RowSize());
    seq(n * d.RowSize(), _ => 0.0)
  }

  lemma AlwaysLands(st: Stage<real>, d: Padding, w: Window<real>, outSize: nat, n: nat)
    requires RunsPad(st, d) && Computes(st, w, outSize) && n >= 1
    ensures Lands(d, n) && 0 <= WriteAt(d, n, 0, 0, 0)
  {
    RunRows(st, w, outSize, n, Zeroes(d, n));
    ProducedIff(d, n, Zeroes(d, n));
    ProductPositive(d.width, d.channels);
  }

  lemma WindowSize(st: Stage<real>, d: Padding, w: Window<real>, outSize: nat)
    requires RunsPad(st, d) && Computes(st, w, outSize)
    ensures Shaped(d) && outSize == d.Batches() * d.OutRow() && d.Batches() > 0 && d.OutRow() > 0
  {
    AlwaysLands(st, d, w, outSize, 1);
    assert 1 * d.RowSize() == d.RowSize();
    KernelSize(d, 1, Row(d, 0.0));
    RunOneRow(st, w, outSize, Row(d, 0.0));
    OutputSize(d, 1);
    assert d.Batches() * 1 == d.Batches();
    ProductPositive(d.Batches(), d.OutRow());
  }

  /** A batch cut off before the data would take more and more rows with it. */
  lemma NothingCutBefore(st: Stage<real>, d: Padding, w: Window<real>, outSize: nat)
    requires RunsPad(st, d) && Computes(st, w, outSize)
    ensures d.p[0] >= 0
  {
    if d.p[0] < 0 {
      WindowSize(st, d, w, outSize);
      AlwaysLands(st, d, w, outSize, 1);
      var first, s := d.At(0, 0), d.OutRow();
      MulMono(d.p[0], -1, s);
      assert first >= 0;
      AlwaysLands(st, d, w, outSize, first + 1);
      MulMono(d.p[0], -1, first + 1);
      MulMono(d.p[0] * (first + 1) + 0, -(first + 1), s);
      MulMono(1, s, first + 1);
    }
  }

  /** Where nothing is written there is zero, and where only ones are written last there is one. */
  lemma {:induction false} LastOfNone(d: Padding, n: nat, at: int, k: nat)
    requires PaddingOk(d) && k <= n * d.RowSize() && forall i: nat :: i < k ==> WriteOf(d, n, i) != at
    ensures LastOf(d, n, at, k).None?
  {
    if k > 0 {
      LastOfNone(d, n, at, k - 1);
    }
  }

  lemma {:induction false} LastOfSome(d: Padding, n: nat, at: int, k: nat, i: nat)
    requires PaddingOk(d) && k <= n * d.RowSize() && i < k && WriteOf(d, n, i) == at
    ensures LastOf(d, n, at, k).Some? && LastOf(d, n, at, k).value >= i
      && WriteOf(d, n, LastOf(d, n, at, k).value) == at
  {
    if i < k - 1 && WriteOf(d, n, k - 1) != at {
      LastOfSome(d, n, at, k - 1, i);
    }
  }

  /** Element t of row o, and the least place it can be written at. */
  lemma WriteOfRow(d: Padding, n: nat, o: nat, t: nat)
    requires PaddingOk(d) && d.OutChannels() >= 0 && t < d.RowSize()
    ensures 0 <= o * d.RowSize() + t
    ensures WriteOf(d, n, o * d.RowSize() + t) == (d.p[0] * n + o) * d.OutRow() + RowAt(d, t)
    ensures RowAt(d, t) >= d.At(0, 0) && RowAt(d, 0) == d.At(0, 0)
  {
    MulNonneg(o, d.RowSize());
    RadixSplit(o, t, d.RowSize());
    ProductPositive(d.width, d.channels);
    ColumnInRange(t, d.width, d.channels);
    WritesInOrder(d, t / d.channels, t % d.channels);
    RowAtIs(d, 0, 0);
  }

  /** The first value of a row of ones, alone. */
  lemma OneRowFirst(st: Stage<real>, d: Padding, w: Window<real>, outSize: nat)
    requires RunsPad(st, d) && Computes(st, w, outSize)
    ensures var at, y := d.p[0] * d.OutRow() + d.At(0, 0), w.eval([Row(d, 1.0)]);
            0 <= at < outSize == |y| && y[at] == 1.0 && forall i :: 0 <= i < at ==> y[i] == 0.0
  {
    var r := Row(d, 1.0);
    WindowSize(st, d, w, outSize);
    AlwaysLands(st, d, w, outSize, 1);
    RunOneRow(st, w, outSize, r);
    assert 1 * d.RowSize() == d.RowSize() && d.p[0] * 1 == d.p[0] && d.Batches() * 1 == d.Batches();
    ProductPositive(d.width, d.channels);
    var at := WriteAt(d, 1, 0, 0, 0);
    assert at == d.p[0] * d.OutRow() + d.At(0, 0);
    KernelAt(d, 1, r, at);
    WriteOfRow(d, 1, 0, 0);
    LastOfSome(d, 1, at, d.RowSize(), 0);
    forall i | 0 <= i < at ensures w.eval([r])[i] == 0.0 {
      KernelAt(d, 1, r, i);
      forall t: nat | t < d.RowSize() ensures WriteOf(d, 1, t) != i {
        WriteOfRow(d, 1, 0, t);
      }
      LastOfNone(d, 1, i, d.RowSize());
    }
  }

  /** A row of zeros makes zeros. */
  lemma ZeroRow(st: Stage<real>, d: Padding, w: Window<real>, outSize: nat)
    requires RunsPad(st, d) && Computes(st, w, outSize)
    ensures |w.eval([Row(d, 0.0)])| == outSize && forall i :: 0 <= i < outSize ==> w.eval([Row(d, 0.0)])[i] == 0.0
  {
    var r := Row(d, 0.0);
    WindowSize(st, d, w, outSize);
    AlwaysLands(st, d, w, outSize, 1);
    RunOneRow(st, w, outSize, r);
    assert 1 * d.RowSize() == d.RowSize() && d.Batches() * 1 == d.Batches();
    forall i | 0 <= i < outSize ensures w.eval([r])[i] == 0.0 {
      KernelAt(d, 1, r, i);
    }
  }

  /** With batches before the data, the ones of the first of two rows begin later than those of a single row. */
  lemma NothingBefore(st: Stage<real>, d: Padding, w: Window<real>, outSize: nat)
    requires RunsPad(st, d) && Computes(st, w, outSize)
    ensures d.p[0] == 0
  {
    NothingCutBefore(st, d, w, outSize);
    if d.p[0] > 0 {
      var r, t, s := Row(d, 1.0), Row(d, 0.0), d.OutRow();
      WindowSize(st, d, w, outSize);
      OneRowFirst(st, d, w, outSize);
      RunTwoRows(st, w, outSize, r, t);
      RunOneRow(st, w, outSize, t);
      AlwaysLands(st, d, w, outSize, 2);
      var at := d.p[0] * s + d.At(0, 0);
      assert d.Batches() * 2 * s == 2 * outSize;
      KernelAt(d, 2, r + t, at);
      BeginsLater(d, at);
    }
  }

  /** Only elements of the second row can be written that early. */
  lemma BeginsLater(d: Padding, at: int)
    requires PaddingOk(d) && Shaped(d) && d.p[0] > 0 && d.OutRow() > 0 && at == d.p[0] * d.OutRow() + d.At(0, 0)
    ensures var i := LastOf(d, 2, at, 2 * d.RowSize()); i.Some? ==> i.value >= d.RowSize()
  {
    var i := LastOf(d, 2, at, 2 * d.RowSize());
    if i.Some? && i.value < d.RowSize() {
      LastIsWritten(d, 2, at, 2 * d.RowSize());
      WriteOfRow(d, 2, 0, i.value);
      assert 0 * d.RowSize() + i.value == i.value;
      MulMono(d.p[0] + 1, d.p[0] * 2, d.OutRow());
      MulDist(d.p[0], 1, d.OutRow());
    }
  }

  lemma {:induction false} LastIsWritten(d: Padding, n: nat, at: int, k: nat)
    requires PaddingOk(d) && k <= n * d.RowSize()
    ensures LastOf(d, n, at, k).Some? ==> WriteOf(d, n, LastOf(d, n, at, k).value) == at
  {
    if k > 0 {
      LastIsWritten(d, n, at, k - 1);
    }
  }

  /** With batches after the data, the ones of the second of two rows begin before its own output does. */
  lemma NothingAfter(st: Stage<real>, d: Padding, w: Window<real>, outSize: nat)
    requires RunsPad(st, d) && Computes(st, w, outSize) && d.p[0] == 0
    ensures d.p[1] == 0
  {
    WindowSize(st, d, w, outSize);
    if d.p[1] > 0 {
      var r, t, s := Row(d, 0.0), Row(d, 1.0), d.OutRow();
      OneRowFirst(st, d, w, outSize);
      ZeroRow(st, d, w, outSize);
      RunTwoRows(st, w, outSize, r, t);
      AlwaysLands(st, d, w, outSize, 2);
      var at := s + d.At(0, 0);
      assert d.p[0] * s == 0 && d.p[0] * 2 == 0;
      MulMono(2, d.Batches(), s);
      assert 2 * s <= outSize && d.Batches() * 2 * s == 2 * outSize;
      SecondBegins(d, at);
      KernelAt(d, 2, r + t, at);
    }
  }

  lemma SecondBegins(d: Padding, at: int)
    requires PaddingOk(d) && Shaped(d) && d.p[0] == 0 && at == d.OutRow() + d.At(0, 0)
    ensures var i := LastOf(d, 2, at, 2 * d.RowSize()); i.Some? && i.value >= d.RowSize()
  {
    WriteOfRow(d, 2, 1, 0);
    assert 1 * d.RowSize() + 0 == d.RowSize() && (d.p[0] * 2 + 1) * d.OutRow() == d.OutRow();
    LastOfSome(d, 2, at, 2 * d.RowSize(), d.RowSize());
  }

  lemma WindowMeansInside(st: Stage<real>, d: Padding, w: Window<real>, outSize: nat)
    requires RunsPad(st, d) && Computes(st, w, outSize) && OneBatch(d)
    ensures Inside(d)
  {
    AlwaysLands(st, d, w, outSize, 1);
    ProductPositive(d.width, d.channels);
    assert d.p[0] * 1 == 0 && d.Batches() * 1 == 1;
    assert 0 <= WriteAt(d, 1, 0, 0, 0) && WriteAt(d, 1, 0, d.width - 1, d.channels - 1) < 1 * d.OutRow();
  }

  /**
   A pad stage computes a window if and only if it pads nothing along the batch axis and what it
   writes for a row stays inside that row. Validation looks at neither, only at the padding along time.
   */
  lemma PadComputesIff(st: Stage<real>, d: Padding)
    requires RunsPad(st, d)
    ensures (exists w: Window<real>, outSize: nat :: Computes(st, w, outSize)) <==> OneBatch(d) && Inside(d)
  {
    if OneBatch(d) && Inside(d) {
      PadStageComputes(st, d);
    }
    forall w: Window<real>, outSize: nat | Computes(st, w, outSize) ensures OneBatch(d) && Inside(d) {
      NothingBefore(st, d, w, outSize);
      NothingAfter(st, d, w, outSize);
      WindowMeansInside(st, d, w, outSize);
    }
  }

  /** Without negative paddings every row stays inside its output row. */
  lemma PositiveInside(d: Padding)
    requires PaddingOk(d) && forall i :: 4 <= i < 8 ==> d.p[i] >= 0
    ensures Inside(d)
  {
    ProductPositive(d.width, d.channels);
    MulNonneg(d.p[4], d.OutChannels());
    RadixBound(d.p[4] + (d.width - 1), d.OutWidth(), d.p[6] + (d.channels - 1), d.OutChannels());
  }
}

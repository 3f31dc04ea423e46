/** Max pooling along time as a stream stage. */
module PoolStage {
  import opened Arith
  import opened Wrappers
  import opened Windows
  import opened Stream
  import opened TimeStage
  import opened Nhwc
  import opened Conv
  import opened MaxPool

  /** The pool run on n time rows of a one-batch input. */
  function OnRows(p: Pool, n: nat, flat: seq<real>): Pool
    requires p.strideH > 0
  {
    p.(batch := 1, ih := n, x := flat, padH := PadBefore(n, p.fh, p.strideH, 1, p.samePad))
  }

  ghost predicate PoolOk(p: Pool) {
    && p.strideH > 0 && p.strideW > 0 && p.fh > 0 && p.fw > 0
    && p.iw * p.c > 0
  }

  function RowWidth(p: Pool): nat
    requires PoolOk(p)
  {
    MulNonneg(p.OutW(), p.c);
    p.OutW() * p.c
  }

  /** What a time pool must satisfy to be accepted as a stage. */
  ghost predicate Accepted(p: Pool) {
    && PoolOk(p) && RowWidth(p) > 0
    && !(p.fh > 1 && p.samePad)
    && p.strideH <= p.fh
  }

  lemma OnRowsValid(p: Pool, n: nat, flat: seq<real>)
    requires PoolOk(p) && |flat| == n * (p.iw * p.c)
    ensures OnRows(p, n, flat).Valid()
  {
    MulAssoc(n, p.iw, p.c);
  }

  function PoolKernel(p: Pool, n: nat, flat: seq<real>): KernelResult<real>
    requires PoolOk(p)
  {
    if |flat| != n * (p.iw * p.c) then Failed else
      OnRowsValid(p, n, flat);
      Produced(OnRows(p, n, flat).OutH(), Pooled(OnRows(p, n, flat)))
  }

  function PoolCell(p: Pool, n: nat, flat: seq<real>, o: nat, j: nat): real {
    if p.strideH == 0 then 0.0 else RowValue(p.c, PooledValues(OnRows(p, n, flat)), o, j)
  }

  /** The pool by its output cells. */
  function PoolCells(p: Pool): RowKernel
    requires PoolOk(p)
  {
    RowKernel(p.iw * p.c, p.fh, p.strideH, RowWidth(p),
      (n: nat, flat: seq<real>, o: nat, j: nat) => PoolCell(p, n, flat, o, j))
  }

  lemma NoTimePadding(p: Pool, n: nat)
    requires Accepted(p)
    ensures PadBefore(n, p.fh, p.strideH, 1, p.samePad) == 0
    ensures OutputSize(n, p.fh, p.strideH, 1, p.samePad) == Positions(p.fh, p.strideH, n)
  {
    TimeGeometry(n, p.fh, p.strideH, 1, p.samePad);
  }

  /** piece holds rows r0 .. r0 + k of flat. */
  ghost predicate Piece(p: Pool, flat: seq<real>, r0: nat, k: nat, piece: seq<real>) {
    var size := p.iw * p.c;
    && 0 <= r0 * size <= r0 * size + k * size <= |flat|
    && piece == flat[r0 * size..r0 * size + k * size]
  }

  lemma PixelShift(p: Pool, flat: seq<real>, n: nat, r0: nat, k: nat, piece: seq<real>, iy: nat, ix: nat, ch: nat)
    requires p.strideH > 0 && Piece(p, flat, r0, k, piece) && r0 + k <= n && iy < k && ix < p.iw && ch < p.c
    ensures OnRows(p, n, flat).Pixel(0, r0 + iy, ix, ch) == OnRows(p, k, piece).Pixel(0, iy, ix, ch)
  {
    var at, down := ((0 * k + iy) * p.iw + ix) * p.c + ch, ((0 * n + (r0 + iy)) * p.iw + ix) * p.c + ch;
    RowsDown(r0, k, iy, p.iw, ix, p.c, ch, at, down);
    SameValue(flat, piece, r0 * (p.iw * p.c), down, at);
  }

  /** Tap by tap, a window on the whole input is the window on its own rows. */
  lemma TapShift(p: Pool, flat: seq<real>, n: nat, r0: nat, piece: seq<real>, x0: int, ch: nat, ky: nat, kx: nat)
    requires p.strideH > 0 && r0 + p.fh <= n && Piece(p, flat, r0, p.fh, piece) && ky < p.fh && ch < p.c
    ensures OnRows(p, n, flat).Taps(0, r0, x0, ch)(ky, kx) == OnRows(p, p.fh, piece).Taps(0, 0, x0, ch)(ky, kx)
  {
    TapsAt(OnRows(p, n, flat), 0, r0, x0, ch, ky, kx);
    TapsAt(OnRows(p, p.fh, piece), 0, 0, x0, ch, ky, kx);
    if 0 <= x0 + kx < p.iw {
      PixelShift(p, flat, n, r0, p.fh, piece, ky, x0 + kx, ch);
    }
  }

  lemma UnpaddedAt(p: Pool, n: nat, flat: seq<real>, o: nat, r0: nat, ox: nat, x0: int, ch: nat)
    requires Accepted(p) && r0 == o * p.strideH && x0 == TapAt(ox, 0, p.strideW, 1, p.padW)
    ensures OnRows(p, n, flat).At(0, o, ox, ch) == OnRows(p, n, flat).AtCorner(0, r0, x0, ch)
  {
    NoTimePadding(p, n);
    TimeTap(o, 0, p.strideH, 1, r0);
    assert TapAt(o, 0, p.strideH, 1, OnRows(p, n, flat).padH) == r0;
  }

  lemma PoolCellShift(p: Pool, n: nat, flat: seq<real>, o: nat, j: nat, piece: seq<real>)
    requires Accepted(p) && o * p.strideH + p.fh <= n && PoolCells(p).Piece(flat, o, piece)
    ensures PoolCell(p, n, flat, o, j) == PoolCell(p, p.fh, piece, 0, j)
  {
    NoNegative(j, p.c);
    MulNonneg(o, p.strideH);
    AtShift(p, n, flat, o, o * p.strideH, piece, j / p.c, j % p.c);
  }

  lemma NoNegative(j: nat, c: nat)
    requires c > 0
    ensures 0 <= j / c && 0 <= j % c < c
  {
  }

  lemma AtShift(p: Pool, n: nat, flat: seq<real>, o: nat, r0: nat, piece: seq<real>, ox: nat, ch: nat)
    requires Accepted(p) && ch < p.c
    requires r0 == o * p.strideH && r0 + p.fh <= n && Piece(p, flat, r0, p.fh, piece)
    ensures OnRows(p, n, flat).At(0, o, ox, ch) == OnRows(p, p.fh, piece).At(0, 0, ox, ch)
  {
    var x0 := TapAt(ox, 0, p.strideW, 1, p.padW);
    UnpaddedAt(p, n, flat, o, r0, ox, x0, ch);
    UnpaddedAt(p, p.fh, piece, 0, 0, ox, x0, ch);
    CornerShift(p, n, flat, r0, piece, x0, ch);
  }

  lemma CornerShift(p: Pool, n: nat, flat: seq<real>, r0: nat, piece: seq<real>, x0: int, ch: nat)
    requires p.strideH > 0 && ch < p.c && r0 + p.fh <= n && Piece(p, flat, r0, p.fh, piece)
    ensures OnRows(p, n, flat).AtCorner(0, r0, x0, ch) == OnRows(p, p.fh, piece).AtCorner(0, 0, x0, ch)
  {
    var tap, tap' := OnRows(p, n, flat).Taps(0, r0, x0, ch), OnRows(p, p.fh, piece).Taps(0, 0, x0, ch);
    forall ky: nat, kx: nat | ky < p.fh && kx < p.fw ensures tap(ky, kx) == tap'(ky, kx) {
      TapShift(p, flat, n, r0, piece, x0, ch, ky, kx);
    }
    BestSame(tap, tap', p.fh, p.fw);
  }

  /** Each pooled row depends on its own window of rows alone. */
  lemma PoolIsLocal(p: Pool)
    requires Accepted(p)
    ensures PoolCells(p).Valid() && PoolCells(p).Local()
  {
    var k := PoolCells(p);
    forall n: nat, flat: seq<real>, o: nat, j: nat, piece: seq<real>
      | |flat| == n * k.rowSize && o * k.consume + k.need <= n && j < k.width && k.Piece(flat, o, piece)
      ensures k.cell(n, flat, o, j) == k.cell(k.need, piece, 0, j)
    {
      PoolCellShift(p, n, flat, o, j, piece);
    }
  }

  lemma OutputIsCells(p: Pool, n: nat, flat: seq<real>)
    requires Accepted(p) && |flat| == n * (p.iw * p.c)
    ensures OnRows(p, n, flat).Valid()
    ensures Pooled(OnRows(p, n, flat)) == PoolCells(p).Cells(n, flat, OnRows(p, n, flat).OutH())
  {
    OnRowsValid(p, n, flat);
    var whole := OnRows(p, n, flat);
    SameCells(PoolCells(p), n, flat, whole.OutH(), whole.OutW(), p.c, PooledValues(whole));
  }

  /** The stage configured for a pool. */
  ghost predicate RunsPool(st: Stage<real>, p: Pool) {
    && PoolOk(p) && p.padW == PadBefore(p.iw, p.fw, p.strideW, 1, p.samePad)
    && st.rowSize == p.iw * p.c && st.need == p.fh && st.consume == p.strideH
    && forall n: nat, flat: seq<real> {:trigger st.kernel(n, flat)} :: st.kernel(n, flat) == PoolKernel(p, n, flat)
  }

  /** What the stage runs is the kernel, with the padding it works out itself. */
  lemma StageRunsKernel(st: Stage<real>, p: Pool, n: nat, flat: seq<real>)
    requires RunsPool(st, p) && |flat| == n * st.rowSize
    ensures var g := OnRows(p, n, flat);
            g.Valid() && g.WithPadding() == g && st.kernel(n, flat) == Produced(g.OutH(), Pooled(g))
  {
    OnRowsValid(p, n, flat);
  }

  /** An accepted time pool is a window operator over its rows. */
  lemma PoolStageComputes(st: Stage<real>, p: Pool)
    requires RunsPool(st, p) && Accepted(p)
    ensures Computes(st, PoolCells(p).AsWindow(), RowWidth(p))
  {
    var k := PoolCells(p);
    forall n: nat, flat: seq<real> | |flat| == n * k.rowSize && n >= k.need && k.Valid()
      ensures st.kernel(n, flat)
        == Produced(Positions(k.need, k.consume, n), k.Cells(n, flat, Positions(k.need, k.consume, n)))
    {
      OutputIsCells(p, n, flat);
      NoTimePadding(p, n);
    }
    PoolIsLocal(p);
    LocalKernelComputes(st, k);
  }
}

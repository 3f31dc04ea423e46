/** Convolutions as stream stages: each output row depends on its own window of time rows alone. */
module ConvStage {
  import opened Arith
  import opened Rows
  import opened Windows
  import opened Stream
  import opened TimeStage
  import opened Nhwc
  import opened Conv

  /** The layer run on n time rows of a one-batch input. */
  function OnRows(l: Layer, n: nat, flat: seq<real>): Layer
    requires l.strideH > 0
  {
    l.(batch := 1, ih := n, x := flat, padH := PadBefore(n, l.kh, l.strideH, l.dilationH, l.samePad))
  }

  function ConvKernel(l: Layer, n: nat, flat: seq<real>): KernelResult<real>
    requires LayerOk(l)
  {
    if |flat| != n * (l.iw * l.ic) then Failed else
      OnRowsValid(l, n, flat);
      Produced(OnRows(l, n, flat).OutH(), Output(OnRows(l, n, flat)))
  }

  ghost predicate LayerOk(l: Layer) {
    && l.strideH > 0 && l.strideW > 0 && l.dilationH > 0
    && l.iw * l.ic > 0 && l.oc > 0
    && |l.w| == l.oc * l.kh * l.kw * l.ic
    && (l.bias.Some? ==> |l.bias.value| >= l.oc)
  }

  /** What a time convolution must satisfy to be accepted as a stage. */
  ghost predicate Accepted(l: Layer) {
    && LayerOk(l) && RowWidth(l) > 0
    && !(l.kh > 1 && l.samePad)
    && 1 <= l.strideH <= l.kh
  }

  lemma OnRowsValid(l: Layer, n: nat, flat: seq<real>)
    requires LayerOk(l) && |flat| == n * (l.iw * l.ic)
    ensures OnRows(l, n, flat).Valid()
  {
    MulAssoc(n, l.iw, l.ic);
  }

  // ---------------------------------------------------------------- locality in time

  /** piece holds time rows r0 .. r0 + k of flat. */
  ghost predicate Piece(l: Layer, flat: seq<real>, r0: nat, k: nat, piece: seq<real>) {
    var size := l.iw * l.ic;
    && 0 <= r0 * size <= r0 * size + k * size <= |flat|
    && piece == flat[r0 * size..r0 * size + k * size]
  }

  lemma PixelShift(l: Layer, flat: seq<real>, n: nat, r0: nat, k: nat, piece: seq<real>, iy: nat, ix: int, ch: nat)
    requires l.strideH > 0 && Piece(l, flat, r0, k, piece) && r0 + k <= n && iy < k && ch < l.ic
    ensures OnRows(l, n, flat).Pixel(0, r0 + iy, ix, ch) == OnRows(l, k, piece).Pixel(0, iy, ix, ch)
  {
    if 0 <= ix < l.iw {
      var at, down := ((0 * k + iy) * l.iw + ix) * l.ic + ch, ((0 * n + (r0 + iy)) * l.iw + ix) * l.ic + ch;
      RowsDown(r0, k, iy, l.iw, ix, l.ic, ch, at, down);
      SameValue(flat, piece, r0 * (l.iw * l.ic), down, at);
    }
  }

  lemma {:induction false} TapShift(l: Layer, flat: seq<real>, n: nat, r0: nat, k: nat, piece: seq<real>,
                                    iy: nat, ix: int, f: nat, ky: nat, kx: nat, m: nat)
    requires l.strideH > 0 && Piece(l, flat, r0, k, piece) && r0 + k <= n && iy < k && m <= l.ic
    ensures OnRows(l, n, flat).TapSum(0, r0 + iy, ix, f, ky, kx, m)
      == OnRows(l, k, piece).TapSum(0, iy, ix, f, ky, kx, m)
  {
    if m > 0 {
      TapShift(l, flat, n, r0, k, piece, iy, ix, f, ky, kx, m - 1);
      TermShift(l, flat, n, r0, k, piece, iy, ix, f, ky, kx, m - 1);
    }
  }

  lemma TermShift(l: Layer, flat: seq<real>, n: nat, r0: nat, k: nat, piece: seq<real>,
                  iy: nat, ix: int, f: nat, ky: nat, kx: nat, ch: nat)
    requires l.strideH > 0 && Piece(l, flat, r0, k, piece) && r0 + k <= n && iy < k && ch < l.ic
    ensures OnRows(l, n, flat).Term(0, r0 + iy, ix, f, ky, kx, ch) == OnRows(l, k, piece).Term(0, iy, ix, f, ky, kx, ch)
  {
    PixelShift(l, flat, n, r0, k, piece, iy, ix, ch);
    assert OnRows(l, n, flat).Weight(f, ky, kx, ch) == OnRows(l, k, piece).Weight(f, ky, kx, ch);
  }

  lemma {:induction false} RowShift(l: Layer, flat: seq<real>, n: nat, r0: nat, k: nat, piece: seq<real>,
                                    iy: nat, ox: nat, f: nat, ky: nat, m: nat)
    requires l.strideH > 0 && Piece(l, flat, r0, k, piece) && r0 + k <= n && iy < k
    ensures OnRows(l, n, flat).RowSum(0, r0 + iy, ox, f, ky, m) == OnRows(l, k, piece).RowSum(0, iy, ox, f, ky, m)
  {
    if m > 0 {
      RowShift(l, flat, n, r0, k, piece, iy, ox, f, ky, m - 1);
      TapShift(l, flat, n, r0, k, piece, iy, TapAt(ox, m - 1, l.strideW, l.dilationW, l.padW), f, ky, m - 1, l.ic);
    }
  }

  /** The filter covers adjacent rows and starts at the first one: no padding and no dilation in time. */
  ghost predicate Undilated(l: Layer) {
    l.kh == 1 || l.dilationH == 1
  }

  lemma NoTimePadding(l: Layer, n: nat)
    requires Accepted(l)
    ensures PadBefore(n, l.kh, l.strideH, l.dilationH, l.samePad) == 0
    ensures Undilated(l) ==> OutputSize(n, l.kh, l.strideH, l.dilationH, l.samePad) == Positions(l.kh, l.strideH, n)
  {
    TimeGeometry(n, l.kh, l.strideH, l.dilationH, l.samePad);
  }

  lemma {:induction false} KernelShift(l: Layer, flat: seq<real>, n: nat, oy: nat, r0: nat, piece: seq<real>,
                                       ox: nat, f: nat, m: nat)
    requires Accepted(l) && Undilated(l) && m <= l.kh
    requires r0 == oy * l.strideH && r0 + l.kh <= n && Piece(l, flat, r0, l.kh, piece)
    ensures OnRows(l, n, flat).KernelSum(0, oy, ox, f, m) == OnRows(l, l.kh, piece).KernelSum(0, 0, ox, f, m)
  {
    if m > 0 {
      KernelShift(l, flat, n, oy, r0, piece, ox, f, m - 1);
      NoTimePadding(l, n);
      NoTimePadding(l, l.kh);
      TimeTap(oy, m - 1, l.strideH, l.dilationH, r0);
      RowShift(l, flat, n, r0, l.kh, piece, m - 1, ox, f, m - 1, l.kw);
    }
  }

  function RowWidth(l: Layer): nat
    requires LayerOk(l)
  {
    MulNonneg(OutputSize(l.iw, l.kw, l.strideW, l.dilationW, l.samePad), l.oc);
    OutputSize(l.iw, l.kw, l.strideW, l.dilationW, l.samePad) * l.oc
  }

  lemma AtShift(l: Layer, n: nat, flat: seq<real>, oy: nat, piece: seq<real>, ox: nat, f: nat)
    requires Accepted(l) && Undilated(l)
    requires oy * l.strideH + l.kh <= n && Piece(l, flat, oy * l.strideH, l.kh, piece)
    ensures OnRows(l, n, flat).At(0, oy, ox, f) == OnRows(l, l.kh, piece).At(0, 0, ox, f)
  {
    KernelShift(l, flat, n, oy, oy * l.strideH, piece, ox, f, l.kh);
  }

  /** The layer by its output cells. */
  function ConvCells(l: Layer): RowKernel
    requires LayerOk(l)
  {
    RowKernel(l.iw * l.ic, l.kh, l.strideH, RowWidth(l),
      (n: nat, flat: seq<real>, o: nat, j: nat) => ConvCell(l, n, flat, o, j))
  }

  function ConvCell(l: Layer, n: nat, flat: seq<real>, o: nat, j: nat): real {
    if l.strideH == 0 then 0.0 else RowValue(l.oc, Values(OnRows(l, n, flat)), o, j)
  }

  /** Each output row of an undilated time convolution depends on its own kh input rows alone. */
  lemma ConvIsLocal(l: Layer)
    requires Accepted(l) && Undilated(l)
    ensures ConvCells(l).Valid() && ConvCells(l).Local()
  {
    var k := ConvCells(l);
    forall n: nat, flat: seq<real>, o: nat, j: nat, piece: seq<real>
      | |flat| == n * k.rowSize && o * k.consume + k.need <= n && j < k.width && k.Piece(flat, o, piece)
      ensures k.cell(n, flat, o, j) == k.cell(k.need, piece, 0, j)
    {
      ConvCellShift(l, n, flat, o, j, piece);
    }
  }

  lemma ConvCellShift(l: Layer, n: nat, flat: seq<real>, o: nat, j: nat, piece: seq<real>)
    requires Accepted(l) && Undilated(l)
    requires o * l.strideH + l.kh <= n && ConvCells(l).Piece(flat, o, piece)
    ensures ConvCell(l, n, flat, o, j) == ConvCell(l, l.kh, piece, 0, j)
  {
    NoNegative(j, l.oc);
    AtShift(l, n, flat, o, piece, j / l.oc, j % l.oc);
  }

  lemma NoNegative(j: nat, oc: nat)
    requires oc > 0
    ensures 0 <= j / oc && 0 <= j % oc
  {
  }

  /** The kernel's buffer on n rows, cell by cell. */
  lemma OutputIsCells(l: Layer, n: nat, flat: seq<real>)
    requires Accepted(l) && |flat| == n * (l.iw * l.ic)
    ensures OnRows(l, n, flat).Valid()
    ensures Output(OnRows(l, n, flat)) == ConvCells(l).Cells(n, flat, OnRows(l, n, flat).OutH())
  {
    OnRowsValid(l, n, flat);
    var whole := OnRows(l, n, flat);
    SameCells(ConvCells(l), n, flat, whole.OutH(), whole.OutW(), l.oc, Values(whole));
  }

  // ---------------------------------------------------------------- the stage

  /** The stage configured for a convolution: its filter height is its need, its time stride its consumption. */
  ghost predicate RunsConv(st: Stage<real>, l: Layer) {
    && LayerOk(l) && l.padW == PadBefore(l.iw, l.kw, l.strideW, l.dilationW, l.samePad)
    && st.rowSize == l.iw * l.ic && st.need == l.kh && st.consume == l.strideH
    && forall n: nat, flat: seq<real> {:trigger st.kernel(n, flat)} :: st.kernel(n, flat) == ConvKernel(l, n, flat)
  }

  /** What the stage runs is the kernel, with the padding it works out itself. */
  lemma StageRunsKernel(st: Stage<real>, l: Layer, n: nat, flat: seq<real>)
    requires RunsConv(st, l) && |flat| == n * st.rowSize
    ensures var g := OnRows(l, n, flat);
            g.Valid() && g.WithPadding() == g && st.kernel(n, flat) == Produced(g.OutH(), Output(g))
  {
    OnRowsValid(l, n, flat);
  }

  /** An accepted, undilated time convolution is a window operator over its rows. */
  lemma ConvStageComputes(st: Stage<real>, l: Layer)
    requires RunsConv(st, l) && Accepted(l) && Undilated(l)
    ensures Computes(st, ConvCells(l).AsWindow(), RowWidth(l))
  {
    var k := ConvCells(l);
    forall n: nat, flat: seq<real> | |flat| == n * k.rowSize && n >= k.need && k.Valid()
      ensures st.kernel(n, flat)
        == Produced(Positions(k.need, k.consume, n), k.Cells(n, flat, Positions(k.need, k.consume, n)))
    {
      OutputIsCells(l, n, flat);
      NoTimePadding(l, n);
    }
    ConvIsLocal(l);
    LocalKernelComputes(st, k);
  }

  /**
   The stage takes the filter height for its need and ignores time dilation. Once enough rows are
   buffered, a feed returns rows exactly when the filter is undilated in time; otherwise the row
   count check fails on every such feed and the stream yields nothing.
   */
  lemma EmitsIffUndilated(st: Stage<real>, l: Layer, pending: seq<real>, rows: seq<real>)
    requires RunsConv(st, l) && Accepted(l)
    requires |pending| % st.rowSize == 0 && |rows| % st.rowSize == 0
    requires |pending + rows| / st.rowSize >= st.need
    ensures RunSpec(st, pending, rows).0.Rows? <==> Undilated(l)
    ensures !Undilated(l) ==> RunSpec(st, pending, rows).0.RowMismatch?
  {
    var flat := pending + rows;
    var have := |flat| / st.rowSize;
    var used := Stage<real>.Used(st.need, st.consume, have);
    WholeRowsFit(|flat|, st.rowSize, used);
    var cut := flat[..used * st.rowSize];
    OnRowsValid(l, used, cut);
    LastWindow(l.kh, l.strideH, have, used);
    NoTimePadding(l, used);
    if !Undilated(l) {
      DilatedTooFewRows(l, used, Positions(l.kh, l.strideH, have));
    }
  }

  lemma DilatedTooFewRows(l: Layer, used: nat, emit: nat)
    requires Accepted(l) && !Undilated(l)
    requires emit > 0 && used == l.kh + (emit - 1) * l.strideH
    ensures OutputSize(used, l.kh, l.strideH, l.dilationH, l.samePad) < emit
  {
    var e := Effective(l.kh, l.dilationH);
    MulMono(2, l.dilationH, l.kh - 1);
    assert (l.kh - 1) * l.dilationH == l.dilationH * (l.kh - 1);
    assert e > l.kh;
    if used >= e {
      StridesInside(used, e, l.strideH, emit - 1);
    }
  }
}

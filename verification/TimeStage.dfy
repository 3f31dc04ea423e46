/** What a row kernel must do to be a window operator along time, for any kernel over flat rows. */
module TimeStage {
  import opened Arith
  import opened Rows
  import opened Windows
  import opened Stream
  import opened Nhwc

  /** A kernel given by its output cells: cell(n, flat, o, j) is value j of output row o for n input rows. */
  datatype RowKernel = RowKernel(rowSize: nat, need: nat, consume: nat, width: nat,
                                 cell: (nat, seq<real>, nat, nat) -> real)
  {
    predicate Valid() {
      rowSize > 0 && width > 0 && 0 < consume <= need
    }

    /** The flat output of `rows` rows. */
    function Cells(n: nat, flat: seq<real>, rows: nat): (y: seq<real>)
      requires width > 0
    {
      MulNonneg(rows, width);
      seq(rows * width, i requires 0 <= i < rows * width => cell(n, flat, i / width, i % width))
    }

    /** One output row from the rows of its window. */
    function RowOf(flat: seq<real>): (row: seq<real>)
      ensures |row| == width
    {
      seq(width, j requires 0 <= j < width => cell(need, flat, 0, j))
    }

    function AsWindow(): (w: Window<real>) {
      Window(need, consume, (rows: seq<seq<real>>) => RowOf(Join(rows)))
    }

    /** piece holds the rows of the window at output row o. */
    ghost predicate Piece(flat: seq<real>, o: nat, piece: seq<real>) {
      var from := o * consume * rowSize;
      && 0 <= from <= from + need * rowSize <= |flat|
      && piece == flat[from..from + need * rowSize]
    }

    /** Every cell of output row o depends on that row's window alone. */
    ghost predicate Local() {
      forall n: nat, flat: seq<real>, o: nat, j: nat, piece: seq<real>
        {:trigger cell(n, flat, o, j), Piece(flat, o, piece)} ::
        |flat| == n * rowSize && o * consume + need <= n && j < width && Piece(flat, o, piece) ==>
          cell(n, flat, o, j) == cell(need, piece, 0, j)
    }

    ghost predicate RunBy(st: Stage<real>) {
      && st.rowSize == rowSize && st.need == need && st.consume == consume
      && forall n: nat, flat: seq<real> {:trigger st.kernel(n, flat)} ::
           |flat| == n * rowSize && n >= need && Valid() ==>
           st.kernel(n, flat) == Produced(Positions(need, consume, n), Cells(n, flat, Positions(need, consume, n)))
    }
  }

  /** A stage running a local row kernel computes the kernel's window operator. */
  lemma LocalKernelComputes(st: Stage<real>, k: RowKernel)
    requires k.Valid() && k.RunBy(st) && k.Local()
    ensures Computes(st, k.AsWindow(), k.width)
  {
    forall flat: seq<real> | |flat| % st.rowSize == 0 && |flat| / st.rowSize >= st.need
      ensures KernelOn(st, k.AsWindow(), flat)
    {
      WindowsOfKernel(st, k, flat, |flat| / st.rowSize);
    }
  }

  lemma WindowsOfKernel(st: Stage<real>, k: RowKernel, flat: seq<real>, n: nat)
    requires k.Valid() && k.RunBy(st) && k.Local()
    requires |flat| == n * k.rowSize && n >= k.need && n == |flat| / k.rowSize
    ensures KernelOn(st, k.AsWindow(), flat)
  {
    var w, rows := k.AsWindow(), Split(flat, k.rowSize);
    var count := Positions(k.need, k.consume, n);
    SplitLength(flat, k.rowSize);
    EmitLength(w, rows);
    KernelPieces(k, flat, n, Emit(w, rows));
    assert k.Cells(n, flat, count) == Join(Emit(w, rows));
    assert st.kernel(n, flat) == Produced(count, k.Cells(n, flat, count));
  }

  lemma KernelPieces(k: RowKernel, flat: seq<real>, n: nat, rows: seq<seq<real>>)
    requires k.Valid() && k.Local() && |flat| == n * k.rowSize
    requires |Split(flat, k.rowSize)| == n && rows == Emit(k.AsWindow(), Split(flat, k.rowSize))
    ensures k.Cells(n, flat, |rows|) == Join(rows)
  {
    CellsLength(k, n, flat, |rows|);
    forall o | 0 <= o < |rows| ensures PieceIs(k.Cells(n, flat, |rows|), k.width, o, rows[o]) {
      EmittedRow(k, flat, n, rows, o);
    }
    JoinPieces(k.Cells(n, flat, |rows|), rows, k.width);
  }

  lemma CellsLength(k: RowKernel, n: nat, flat: seq<real>, count: nat)
    requires k.width > 0
    ensures |k.Cells(n, flat, count)| == count * k.width
  {
  }

  lemma EmittedRow(k: RowKernel, flat: seq<real>, n: nat, rows: seq<seq<real>>, o: nat)
    requires k.Valid() && k.Local() && |flat| == n * k.rowSize
    requires |Split(flat, k.rowSize)| == n && rows == Emit(k.AsWindow(), Split(flat, k.rowSize)) && o < |rows|
    ensures PieceIs(k.Cells(n, flat, |rows|), k.width, o, rows[o])
  {
    var r0 := o * k.consume;
    EmitFrom(k.AsWindow(), Split(flat, k.rowSize), o, r0);
    WindowEval(k, Split(flat, k.rowSize)[r0..r0 + k.need]);
    PieceHere(k, flat, n, o, r0);
    CellsRow(k, n, flat, |rows|, o, Join(Split(flat, k.rowSize)[r0..r0 + k.need]));
  }

  lemma CellsAt(k: RowKernel, n: nat, flat: seq<real>, count: nat, i: nat)
    requires k.width > 0 && i < |k.Cells(n, flat, count)|
    ensures 0 <= i / k.width && 0 <= i % k.width
    ensures k.Cells(n, flat, count)[i] == k.cell(n, flat, i / k.width, i % k.width)
  {
  }

  lemma WindowEval(k: RowKernel, rows: seq<seq<real>>)
    ensures k.AsWindow().eval(rows) == k.RowOf(Join(rows))
  {
  }

  lemma PieceHere(k: RowKernel, flat: seq<real>, n: nat, o: nat, r0: nat)
    requires k.Valid() && |flat| == n * k.rowSize && |Split(flat, k.rowSize)| == n
    requires r0 == o * k.consume && r0 + k.need <= n
    ensures k.Piece(flat, o, Join(Split(flat, k.rowSize)[r0..r0 + k.need]))
  {
    JoinCutAt(flat, k.rowSize, n, r0, k.need);
  }

  lemma CellsRow(k: RowKernel, n: nat, flat: seq<real>, count: nat, o: nat, piece: seq<real>)
    requires k.Valid() && k.Local() && o < count
    requires |flat| == n * k.rowSize && o * k.consume + k.need <= n && k.Piece(flat, o, piece)
    ensures PieceIs(k.Cells(n, flat, count), k.width, o, k.RowOf(piece))
  {
    var from, y := o * k.width, k.Cells(n, flat, count);
    CellRange(o, count, k.width);
    var row := y[from..from + k.width];
    forall j | 0 <= j < k.width ensures row[j] == k.RowOf(piece)[j] {
      RadixSplit(o, j, k.width);
      assert row[j] == y[from + j];
      assert k.cell(n, flat, o, j) == k.cell(k.need, piece, 0, j);
    }
  }

  lemma CellRange(o: nat, count: nat, width: nat)
    requires o < count
    ensures 0 <= o * width && o * width + width <= count * width
  {
    MulNonneg(o, width);
    MulMono(o + 1, count, width);
    MulDist(o, 1, width);
  }

  /** A one-batch image whose values are a kernel's cells is that kernel's output. */
  lemma SameCells(k: RowKernel, n: nat, flat: seq<real>, oh: nat, ow: nat, oc: nat, at: (nat, nat, nat, nat) -> real)
    requires k.width == ow * oc && k.width > 0
    requires forall o: nat, j: nat :: k.cell(n, flat, o, j) == RowValue(oc, at, o, j)
    ensures Image(1, oh, ow, oc, at) == k.Cells(n, flat, oh)
  {
    ImageSize(oh, ow, oc, at, k.width);
    CellsLength(k, n, flat, oh);
    forall i | 0 <= i < oh * k.width ensures Image(1, oh, ow, oc, at)[i] == k.Cells(n, flat, oh)[i] {
      ImageByRows(oh, ow, oc, at, k.width, i);
      CellsAt(k, n, flat, oh, i);
    }
  }

  lemma JoinCutAt(flat: seq<real>, size: nat, n: nat, r0: nat, k: nat)
    requires size > 0 && |flat| == n * size && r0 + k <= n && |Split(flat, size)| == n
    ensures 0 <= r0 * size <= r0 * size + k * size <= |flat|
    ensures Join(Split(flat, size)[r0..r0 + k]) == flat[r0 * size..r0 * size + k * size]
  {
    MulMono(r0 + k, n, size);
    MulDist(r0, k, size);
    MulNonneg(k, size);
    MulNonneg(r0, size);
    JoinCut(flat, size, r0, r0 + k);
  }

  // ---------------------------------------------------------------- row-local operators

  /** An operator that makes each output row from one input row and runs on n rows as cell says. */
  lemma RowLocalComputes(st: Stage<real>, k: RowKernel)
    requires k.Valid() && k.need == 1 && k.consume == 1 && k.Local()
    requires st.rowSize == k.rowSize && st.need == 1 && st.consume == 1
    requires forall n: nat, flat: seq<real> :: |flat| == n * k.rowSize && n >= 1 ==>
      st.kernel(n, flat) == Produced(n, k.Cells(n, flat, n))
    ensures Computes(st, k.AsWindow(), k.width)
  {
    forall n: nat, flat: seq<real> | |flat| == n * k.rowSize && n >= k.need && k.Valid()
      ensures st.kernel(n, flat)
        == Produced(Positions(k.need, k.consume, n), k.Cells(n, flat, Positions(k.need, k.consume, n)))
    {
      EveryRow(n);
    }
    LocalKernelComputes(st, k);
  }

  lemma EveryRow(n: nat)
    requires n >= 1
    ensures Positions(1, 1, n) == n
  {
  }

  /** The window of a row-local operator at row o is that row. */
  lemma RowPiece(k: RowKernel, n: nat, flat: seq<real>, o: nat, piece: seq<real>)
    requires k.need == 1 && k.consume == 1 && o < n && |flat| == n * k.rowSize && k.Piece(flat, o, piece)
    ensures |piece| == k.rowSize && 0 <= o * k.rowSize <= |flat| - k.rowSize
    ensures forall j :: 0 <= j < k.rowSize ==> piece[j] == flat[o * k.rowSize + j]
  {
    assert o * 1 * k.rowSize == o * k.rowSize;
    assert 1 * k.rowSize == k.rowSize;
  }

  /** A row-local stage passes its row-count check exactly when its kernel makes as many rows as it is given. */
  lemma RowLocalPasses(st: Stage<real>, flat: seq<real>)
    requires st.Configured() && st.need == 1 && st.consume == 1 && |flat| % st.rowSize == 0 && |flat| / st.rowSize >= 1
    ensures var have := |flat| / st.rowSize;
            Evaluate(st, flat).0.Rows? <==> st.kernel(have, flat).Produced? && st.kernel(have, flat).rows == have
  {
    var have := |flat| / st.rowSize;
    EveryRow(have);
    assert Stage<real>.Used(1, 1, have) == have;
    assert have * st.rowSize == |flat|;
    assert flat[..have * st.rowSize] == flat;
  }

  lemma RunOneRow(st: Stage<real>, w: Window<real>, outSize: nat, r: seq<real>)
    requires Computes(st, w, outSize) && st.need == 1 && st.consume == 1 && |r| == st.rowSize
    ensures st.kernel(1, r) == Produced(1, w.eval([r])) && |w.eval([r])| == outSize
  {
    DivUnique(|r|, |r|, 1, 0);
    assert KernelOn(st, w, r);
    SplitOne(r, st.rowSize);
    assert [r][..1] == [r] && [r][1..] == [];
    var out := Emit(w, [r]);
    assert Emit(w, [r][1..]) == [];
    assert out == [w.eval([r])] && out[1..] == [];
    assert Join(out) == out[0];
  }

  lemma SplitOne(r: seq<real>, n: nat)
    requires n > 0 && |r| == n
    ensures Split(r, n) == [r]
  {
    assert r[..n] == r && r[n..] == [];
  }

  /** Two rows make their two outputs, one after the other. */
  lemma RunTwoRows(st: Stage<real>, w: Window<real>, outSize: nat, r: seq<real>, t: seq<real>)
    requires Computes(st, w, outSize) && st.need == 1 && st.consume == 1 && |r| == st.rowSize && |t| == st.rowSize
    ensures st.kernel(2, r + t) == Produced(2, w.eval([r]) + w.eval([t]))
  {
    DivUnique(|r + t|, |r|, 2, 0);
    assert KernelOn(st, w, r + t);
    DivUnique(|r|, |r|, 1, 0);
    SplitConcat(r, t, st.rowSize);
    SplitOne(r, st.rowSize);
    SplitOne(t, st.rowSize);
    assert Split(r + t, st.rowSize) == [r, t];
    RunOneRow(st, w, outSize, r);
    RunOneRow(st, w, outSize, t);
    TwoEmitted(w, r, t);
  }

  lemma TwoEmitted(w: Window<real>, r: seq<real>, t: seq<real>)
    requires w.need == 1 && w.consume == 1
    ensures Emit(w, [r, t]) == [w.eval([r]), w.eval([t])]
    ensures Join(Emit(w, [r, t])) == w.eval([r]) + w.eval([t])
  {
    assert [r, t][..1] == [r] && [r, t][1..] == [t] && [t][..1] == [t] && [t][1..] == [];
    assert Emit(w, []) == [];
    assert Emit(w, [t]) == [w.eval([t])];
    var out := Emit(w, [r, t]);
    assert out == [w.eval([r]), w.eval([t])];
    assert out[1..] == [w.eval([t])] && out[1..][1..] == [];
    assert Join(out[1..]) == w.eval([t]);
  }

  /** The kernel does not fail on any whole number of rows. */
  lemma RunRows(st: Stage<real>, w: Window<real>, outSize: nat, n: nat, flat: seq<real>)
    requires Computes(st, w, outSize) && st.need == 1 && n >= 1 && |flat| == n * st.rowSize
    ensures st.kernel(n, flat).Produced?
  {
    DivUnique(|flat|, st.rowSize, n, 0);
    assert KernelOn(st, w, flat);
  }
}

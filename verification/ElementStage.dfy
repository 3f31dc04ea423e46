/** Element-wise operators with a constant operand as stream stages. */
module ElementStage {
  import opened Arith
  import opened Wrappers
  import opened Rows
  import opened Windows
  import opened Stream
  import opened TimeStage
  import opened Shapes
  import opened Broadcast

  /** The operator on rows of width * channels values, and its second operand. */
  datatype Element = Element(f: (real, real) -> real, width: nat, channels: nat, constant: Tensor)
  {
    function RowSize(): nat {
      MulNonneg(width, channels);
      width * channels
    }

    /** Extent of the constant along an axis of the four-axis input, aligned on the right. */
    function Extent(i: nat): nat
      requires |constant.shape| <= 4 && i < 4
    {
      AxisAt(constant.shape, 4, i)
    }

    function OutWidth(): nat
      requires |constant.shape| <= 4
    {
      if width == 1 then Extent(2) else width
    }

    function OutChannels(): nat
      requires |constant.shape| <= 4
    {
      if channels == 1 then Extent(3) else channels
    }

    function OutRow(): nat
      requires |constant.shape| <= 4
    {
      MulNonneg(OutWidth(), OutChannels());
      OutWidth() * OutChannels()
    }
  }

  /** n rows as the kernel sees them. */
  function InputShape(e: Element, n: nat): (s: Shape)
    ensures |s| == 4
  {
    [1, n, e.width, e.channels]
  }

  /** The constant fits the rows, whatever its extent along batch and time. */
  predicate ElementOk(e: Element) {
    && e.constant.Valid() && |e.constant.shape| <= 4 && e.RowSize() > 0 && e.OutRow() > 0
    && (e.width == e.Extent(2) || e.width == 1 || e.Extent(2) == 1)
    && (e.channels == e.Extent(3) || e.channels == 1 || e.Extent(3) == 1)
  }

  function Combined(f: (real, real) -> real, a: Tensor, b: Tensor, shape: Shape): (y: seq<real>)
    requires a.Valid() && b.Valid() && StretchesTo(a.shape, shape) && StretchesTo(b.shape, shape)
    ensures |y| == Count(shape)
  {
    seq(Count(shape), i requires 0 <= i < Count(shape) => ElementAt(f, a, b, shape, i))
  }

  /** What the element-wise kernel returns is this and nothing else. */
  lemma KernelIsCombined(f: (real, real) -> real, a: Tensor, b: Tensor, y: Tensor)
    requires a.Valid() && b.Valid() && Combines(f, a, b, y)
    ensures y == Tensor(y.shape, Combined(f, a, b, y.shape))
  {
  }

  lemma RowsAreInput(e: Element, n: nat)
    ensures Count(InputShape(e, n)) == n * e.RowSize()
  {
    CountFour(1, n, e.width, e.channels);
    MulAssoc(n, e.width, e.channels);
  }

  function ElementKernel(e: Element, n: nat, flat: seq<real>): KernelResult<real>
    requires e.constant.Valid()
  {
    if |flat| != n * e.RowSize() then Failed else
      RowsAreInput(e, n);
      var x := Tensor(InputShape(e, n), flat);
      match Common(x.shape, e.constant.shape)
      case None => Failed
      case Some(shape) =>
        CommonStretches(x.shape, e.constant.shape);
        Produced(shape[1], Combined(e.f, x, e.constant, shape))
  }

  function OutputShape(e: Element, n: nat): Shape
    requires |e.constant.shape| <= 4
  {
    [e.Extent(0), if n == 1 then e.Extent(1) else n, e.OutWidth(), e.OutChannels()]
  }

  /** The shapes combine exactly when the constant's extent along time is 1 or meets the rows. */
  lemma ShapesCombine(e: Element, n: nat)
    requires ElementOk(e)
    ensures Common(InputShape(e, n), e.constant.shape)
         == if e.Extent(1) == 1 || n == 1 || n == e.Extent(1) then Some(OutputShape(e, n)) else None
  {
    var a, b := InputShape(e, n), e.constant.shape;
    assert Max(|a|, |b|) == 4;
    assert forall i :: 0 <= i < 4 ==> AxisAt(a, 4, i) == a[i];
    assert AxesMatch(a, b, 0) && AxesMatch(a, b, 2) && AxesMatch(a, b, 3);
    assert AxesMatch(a, b, 1) <==> e.Extent(1) == 1 || n == 1 || n == e.Extent(1);
    if AxesMatch(a, b, 1) {
      assert Common(a, b).value == OutputShape(e, n);
    }
  }

  // ---------------------------------------------------------------- the kernel, value by value

  /** The constant is the same for every row. */
  predicate Rowless(e: Element)
    requires |e.constant.shape| <= 4
  {
    e.Extent(1) == 1
  }

  /** ... and for every batch. */
  predicate Timeless(e: Element)
    requires |e.constant.shape| <= 4
  {
    e.Extent(0) == 1 && Rowless(e)
  }

  /** A place in the output: a batch, a column and a channel. */
  predicate Place(e: Element, b: nat, jw: nat, jc: nat)
    requires ElementOk(e)
  {
    b < e.Extent(0) && jw < e.OutWidth() && jc < e.OutChannels()
  }

  /** Position in an input row behind column jw and channel jc of an output row. */
  function RowSource(e: Element, jw: nat, jc: nat): int {
    (if e.width == 1 then 0 else jw) * e.channels + (if e.channels == 1 then 0 else jc)
  }

  lemma RowSourceInside(e: Element, jw: nat, jc: nat)
    requires ElementOk(e) && jw < e.OutWidth() && jc < e.OutChannels()
    ensures 0 <= RowSource(e, jw, jc) < e.RowSize()
  {
    RadixBound(if e.width == 1 then 0 else jw, e.width, if e.channels == 1 then 0 else jc, e.channels);
  }

  lemma ConstantStretches(e: Element, n: nat)
    requires ElementOk(e) && Rowless(e)
    ensures OutputShape(e, n) == [e.Extent(0), n, e.OutWidth(), e.OutChannels()]
    ensures Common(InputShape(e, n), e.constant.shape) == Some(OutputShape(e, n))
    ensures StretchesTo(e.constant.shape, OutputShape(e, n)) && StretchesTo(InputShape(e, n), OutputShape(e, n))
  {
    ShapesCombine(e, n);
    CommonStretches(InputShape(e, n), e.constant.shape);
  }

  /** Position in the constant behind a place. */
  function ConstantSource(e: Element, b: nat, jw: nat, jc: nat): (s: int)
    requires ElementOk(e) && Rowless(e) && Place(e, b, jw, jc)
    ensures 0 <= s < |e.constant.data|
  {
    ConstantInside(e, b, jw, jc);
    Flat(Project([b, 0, jw, jc], e.constant.shape), e.constant.shape)
  }

  lemma ConstantInside(e: Element, b: nat, jw: nat, jc: nat)
    requires ElementOk(e) && Rowless(e) && Place(e, b, jw, jc)
    ensures 0 <= Flat(Project([b, 0, jw, jc], e.constant.shape), e.constant.shape) < Count(e.constant.shape)
  {
    var idx: seq<int> := [b, 0, jw, jc];
    ConstantStretches(e, 1);
    assert Within(idx, OutputShape(e, 1));
    ProjectWithin(idx, e.constant.shape, OutputShape(e, 1));
    FlatInRange(Project(idx, e.constant.shape), e.constant.shape);
  }

  /** What the operator makes of a value at a place. */
  function Answer(e: Element, b: nat, jw: nat, jc: nat, v: real): real {
    if ElementOk(e) && Rowless(e) && Place(e, b, jw, jc) then e.f(v, e.constant.data[ConstantSource(e, b, jw, jc)])
      else 0.0
  }

  /** Position of row o at a place in the output for n rows. */
  function OutputAt(e: Element, n: nat, b: nat, o: nat, jw: nat, jc: nat): int
    requires |e.constant.shape| <= 4
  {
    (b * n + o) * e.OutRow() + (jw * e.OutChannels() + jc)
  }

  lemma OutputPlace(e: Element, n: nat, b: nat, o: nat, jw: nat, jc: nat)
    requires ElementOk(e) && Rowless(e) && Place(e, b, jw, jc) && o < n
    ensures var out := OutputShape(e, n);
            && 0 <= OutputAt(e, n, b, o, jw, jc) < Count(out)
            && Unflat(OutputAt(e, n, b, o, jw, jc), out) == [b, o, jw, jc]
  {
    var out := OutputShape(e, n);
    var idx: seq<int> := [b, o, jw, jc];
    ConstantStretches(e, n);
    FlatFour(idx, out);
    CellIndex(b * n + o, e.OutWidth(), e.OutChannels(), jw, jc);
    assert Within(idx, out);
    UnflatOf(idx, out);
  }

  lemma InputSource(e: Element, n: nat, b: nat, o: nat, jw: nat, jc: nat)
    requires ElementOk(e) && o < n
    ensures Flat(Project([b, o, jw, jc], InputShape(e, n)), InputShape(e, n)) == o * e.RowSize() + RowSource(e, jw, jc)
  {
    var a := InputShape(e, n);
    var p := Project([b, o, jw, jc], a);
    FlatFour(p, a);
    var pw, pc := if e.width == 1 then 0 else jw, if e.channels == 1 then 0 else jc;
    assert p == [0, o, pw, pc];
    CellIndex(o, e.width, e.channels, pw, pc);
  }

  lemma ConstantUnmoved(e: Element, b: nat, o: nat, jw: nat, jc: nat)
    requires ElementOk(e) && Rowless(e)
    ensures Project([b, o, jw, jc], e.constant.shape) == Project([b, 0, jw, jc], e.constant.shape)
  {
    var s := e.constant.shape;
    var p, q := Project([b, o, jw, jc], s), Project([b, 0, jw, jc], s);
    forall d | 0 <= d < |s| ensures p[d] == q[d] {
      if 4 - |s| + d == 1 {
        assert s[d] == e.Extent(1);
      }
    }
  }

  /** The kernel's value for row o at a place is what the operator makes of that row's value there. */
  lemma KernelAt(e: Element, n: nat, flat: seq<real>, b: nat, o: nat, jw: nat, jc: nat)
    requires ElementOk(e) && Rowless(e) && Place(e, b, jw, jc) && o < n && |flat| == n * e.RowSize()
    ensures var k, i, x := ElementKernel(e, n, flat), OutputAt(e, n, b, o, jw, jc),
      o * e.RowSize() + RowSource(e, jw, jc);
            && k.Produced? && 0 <= i < |k.flat| && 0 <= x < |flat|
            && k.flat[i] == Answer(e, b, jw, jc, flat[x])
  {
    RowsAreInput(e, n);
    ConstantStretches(e, n);
    RowSourceInside(e, jw, jc);
    RadixBound(o, n, RowSource(e, jw, jc), e.RowSize());
    OutputPlace(e, n, b, o, jw, jc);
    SourcesAt(e, n, b, o, jw, jc);
  }

  lemma SourcesAt(e: Element, n: nat, b: nat, o: nat, jw: nat, jc: nat)
    requires ElementOk(e) && Rowless(e) && Place(e, b, jw, jc) && o < n
    ensures var i, out := OutputAt(e, n, b, o, jw, jc), OutputShape(e, n);
            && 0 <= i < Count(out) && StretchesTo(InputShape(e, n), out) && StretchesTo(e.constant.shape, out)
            && SourceAt(i, InputShape(e, n), out) == o * e.RowSize() + RowSource(e, jw, jc)
            && SourceAt(i, e.constant.shape, out) == ConstantSource(e, b, jw, jc)
  {
    ConstantStretches(e, n);
    OutputPlace(e, n, b, o, jw, jc);
    InputSource(e, n, b, o, jw, jc);
    ConstantUnmoved(e, b, o, jw, jc);
  }

  lemma KernelSize(e: Element, n: nat, flat: seq<real>)
    requires ElementOk(e) && Rowless(e) && |flat| == n * e.RowSize()
    ensures var k := ElementKernel(e, n, flat);
            0 <= e.Extent(0) * n && k.Produced? && k.rows == n && |k.flat| == e.Extent(0) * n * e.OutRow()
  {
    RowsAreInput(e, n);
    ConstantStretches(e, n);
    CountFour(e.Extent(0), n, e.OutWidth(), e.OutChannels());
    MulNonneg(e.Extent(0), n);
    MulAssoc(e.Extent(0) * n, e.OutWidth(), e.OutChannels());
  }

  /** Every position of the output is some row's at some place. */
  lemma PlaceOf(e: Element, n: nat, i: nat) returns (b: nat, o: nat, jw: nat, jc: nat)
    requires ElementOk(e) && 0 <= e.Extent(0) * n && i < e.Extent(0) * n * e.OutRow()
    ensures Place(e, b, jw, jc) && o < n && i == OutputAt(e, n, b, o, jw, jc)
    ensures b * n + o == i / e.OutRow() && jw * e.OutChannels() + jc == i % e.OutRow()
    ensures jw == (i % e.OutRow()) / e.OutChannels() && jc == (i % e.OutRow()) % e.OutChannels()
  {
    CellPosition(i, e.Extent(0) * n, e.OutRow());
    ProductPositive(e.OutWidth(), e.OutChannels());
    ColumnInRange(i % e.OutRow(), e.OutWidth(), e.OutChannels());
    var q := i / e.OutRow();
    ProductPositive(e.Extent(0), n);
    CellPosition(q, e.Extent(0), n);
    b, o := q / n, q % n;
    jw, jc := (i % e.OutRow()) / e.OutChannels(), (i % e.OutRow()) % e.OutChannels();
  }

  // ---------------------------------------------------------------- one row

  function ElementCell(e: Element, flat: seq<real>, o: nat, jw: nat, jc: nat): real {
    var x := o * e.RowSize() + RowSource(e, jw, jc);
    if 0 <= x < |flat| then Answer(e, 0, jw, jc, flat[x]) else 0.0
  }

  function ElementCells(e: Element): RowKernel
    requires ElementOk(e)
  {
    RowKernel(e.RowSize(), 1, 1, e.OutRow(),
      (n: nat, flat: seq<real>, o: nat, j: nat) =>
        if e.OutChannels() > 0 && j / e.OutChannels() >= 0 then
          ElementCell(e, flat, o, j / e.OutChannels(), j % e.OutChannels())
        else 0.0)
  }

  lemma ElementIsLocal(e: Element)
    requires ElementOk(e)
    ensures ElementCells(e).Valid() && ElementCells(e).Local()
  {
    var k := ElementCells(e);
    forall n: nat, flat: seq<real>, o: nat, j: nat, piece: seq<real>
      | |flat| == n * k.rowSize && o * k.consume + k.need <= n && j < k.width && k.Piece(flat, o, piece)
      ensures k.cell(n, flat, o, j) == k.cell(k.need, piece, 0, j)
    {
      RowPiece(k, n, flat, o, piece);
      ColumnInRange(j, e.OutWidth(), e.OutChannels());
      CellInRow(e, flat, o, j / e.OutChannels(), j % e.OutChannels(), piece);
    }
  }

  lemma CellInRow(e: Element, flat: seq<real>, o: nat, jw: nat, jc: nat, piece: seq<real>)
    requires ElementOk(e) && jw < e.OutWidth() && jc < e.OutChannels()
    requires |piece| == e.RowSize() && 0 <= o * e.RowSize() <= |flat| - e.RowSize()
    requires forall j :: 0 <= j < e.RowSize() ==> piece[j] == flat[o * e.RowSize() + j]
    ensures ElementCell(e, flat, o, jw, jc) == ElementCell(e, piece, 0, jw, jc)
  {
    RowSourceInside(e, jw, jc);
    assert 0 * e.RowSize() == 0;
  }

  lemma OutputIsCells(e: Element, n: nat, flat: seq<real>)
    requires ElementOk(e) && Timeless(e) && |flat| == n * e.RowSize() && n >= 1
    ensures ElementKernel(e, n, flat) == Produced(n, ElementCells(e).Cells(n, flat, n))
  {
    var k, y := ElementCells(e), ElementKernel(e, n, flat);
    KernelSize(e, n, flat);
    CellsLength(k, n, flat, n);
    forall i | 0 <= i < |y.flat| ensures y.flat[i] == k.Cells(n, flat, n)[i] {
      var b, o, jw, jc := PlaceOf(e, n, i);
      KernelAt(e, n, flat, b, o, jw, jc);
      CellsAt(k, n, flat, n, i);
    }
    assert y.flat == k.Cells(n, flat, n);
  }

  // ---------------------------------------------------------------- the stage

  /** The stage configured for an element-wise operator: it needs and consumes one row. */
  ghost predicate RunsElement(st: Stage<real>, e: Element) {
    && ElementOk(e)
    && st.rowSize == e.RowSize() && st.need == 1 && st.consume == 1
    && forall n: nat, flat: seq<real> {:trigger st.kernel(n, flat)} :: st.kernel(n, flat) == ElementKernel(e, n, flat)
  }

  /** With a constant that does not vary along time, the operator is a window operator over single rows. */
  lemma ElementStageComputes(st: Stage<real>, e: Element)
    requires RunsElement(st, e) && Timeless(e)
    ensures Computes(st, ElementCells(e).AsWindow(), e.OutRow())
  {
    var k := ElementCells(e);
    ElementIsLocal(e);
    forall n: nat, flat: seq<real> | |flat| == n * k.rowSize && n >= 1
        ensures st.kernel(n, flat) == Produced(n, k.Cells(n, flat, n)) {
      OutputIsCells(e, n, flat);
    }
    RowLocalComputes(st, k);
  }

  // ---------------------------------------------------------------- exactly when

  /** What validation asks of the constant: only one with all four axes is looked at. */
  predicate Validated(constant: Shape) {
    !(|constant| == 4 && constant[1] > 1)
  }

  /**
   The kernel's row count passes the stage's check, on any feed that leaves whole rows buffered, exactly when
   the constant does not vary along time or is as long as what is buffered.
   */
  lemma FeedPassesIff(st: Stage<real>, e: Element, pending: seq<real>, rows: seq<real>)
    requires RunsElement(st, e)
    requires |pending| % st.rowSize == 0 && |rows| % st.rowSize == 0 && |pending + rows| / st.rowSize >= 1
    ensures RunSpec(st, pending, rows).0.Rows? <==> e.Extent(1) == 1 || |pending + rows| / st.rowSize == e.Extent(1)
  {
    var flat := pending + rows;
    WholeSum(|pending|, |rows|, st.rowSize);
    RowLocalPasses(st, flat);
    KernelRows(e, |flat| / st.rowSize, flat);
  }

  lemma KernelRows(e: Element, n: nat, flat: seq<real>)
    requires ElementOk(e) && n >= 1 && n == |flat| / e.RowSize() && |flat| % e.RowSize() == 0
    ensures var k := ElementKernel(e, n, flat);
            k.Produced? && k.rows == n <==> e.Extent(1) == 1 || n == e.Extent(1)
  {
    assert |flat| == n * e.RowSize();
    ShapesCombine(e, n);
    RowsAreInput(e, n);
  }

  function Row(e: Element, v: real): (r: seq<real>)
    ensures |r| == e.RowSize()
  {
    seq(e.RowSize(), _ => v)
  }

  // ---------------------------------------------------------------- constants that vary along the batch axis

  /** At every column and channel the operator has one answer, for all inputs and in all batches. */
  ghost predicate Steady(e: Element)
    requires ElementOk(e)
  {
    forall b: nat, b': nat, jw: nat, jc: nat, v: real,
        v': real {:trigger Answer(e, b, jw, jc, v), Answer(e, b', jw, jc, v')} ::
      Place(e, b, jw, jc) && Place(e, b', jw, jc) ==> Answer(e, b, jw, jc, v) == Answer(e, b', jw, jc, v')
  }

  function SteadyValue(e: Element, col: nat): real
    requires |e.constant.shape| <= 4
  {
    if e.OutChannels() > 0 && col / e.OutChannels() >= 0 then
      Answer(e, 0, col / e.OutChannels(), col % e.OutChannels(), 0.0) else 0.0
  }

  /** Every row becomes the same values, once for each batch. */
  function SteadyCells(e: Element): RowKernel
    requires ElementOk(e)
  {
    MulNonneg(e.Extent(0), e.OutRow());
    RowKernel(e.RowSize(), 1, 1, e.Extent(0) * e.OutRow(),
      (n: nat, flat: seq<real>, o: nat, j: nat) => if j % e.OutRow() >= 0 then SteadyValue(e, j % e.OutRow()) else 0.0)
  }

  lemma ModOfMultiple(i: nat, b: nat, s: nat)
    requires b > 0 && s > 0 && b * s > 0
    ensures (i % (b * s)) % s == i % s && 0 <= i % s
  {
    var q, r := i / (b * s), i % (b * s);
    assert i == (b * s) * q + r;
    MulAssoc(q, b, s);
    MulDist(q * b, r / s, s);
    assert r == s * (r / s) + r % s;
    DivUnique(i, s, q * b + r / s, r % s);
  }

  lemma SteadyOutput(e: Element, n: nat, flat: seq<real>)
    requires ElementOk(e) && Rowless(e) && e.Extent(0) > 0 && Steady(e) && |flat| == n * e.RowSize() && n >= 1
    ensures ElementKernel(e, n, flat) == Produced(n, SteadyCells(e).Cells(n, flat, n))
  {
    var k, y := SteadyCells(e), ElementKernel(e, n, flat);
    KernelSize(e, n, flat);
    CellsLength(k, n, flat, n);
    BatchesByRows(e.Extent(0), n, e.OutRow());
    forall i | 0 <= i < |y.flat| ensures y.flat[i] == k.Cells(n, flat, n)[i] {
      SteadyAt(e, n, flat, i);
    }
    assert y.flat == k.Cells(n, flat, n);
  }

  lemma BatchesByRows(b: nat, n: nat, s: nat)
    requires b > 0 && s > 0
    ensures b * n * s == n * (b * s) && b * s > 0
  {
    MulAssoc(n, b, s);
    MulMono(1, b, s);
  }

  lemma SteadyAt(e: Element, n: nat, flat: seq<real>, i: nat)
    requires ElementOk(e) && Rowless(e) && e.Extent(0) > 0 && Steady(e) && |flat| == n * e.RowSize()
    requires 0 <= e.Extent(0) * n && i < e.Extent(0) * n * e.OutRow()
    requires i < |ElementKernel(e, n, flat).flat| && SteadyCells(e).width > 0 && i < |SteadyCells(e).Cells(n, flat, n)|
    requires ElementKernel(e, n, flat).Produced?
    ensures ElementKernel(e, n, flat).flat[i] == SteadyCells(e).Cells(n, flat, n)[i]
  {
    var b, o, jw, jc := PlaceOf(e, n, i);
    KernelAt(e, n, flat, b, o, jw, jc);
    CellsAt(SteadyCells(e), n, flat, n, i);
    ModOfMultiple(i, e.Extent(0), e.OutRow());
    var x := o * e.RowSize() + RowSource(e, jw, jc);
    assert Place(e, 0, jw, jc);
    assert Answer(e, b, jw, jc, flat[x]) == Answer(e, 0, jw, jc, 0.0);
  }

  lemma SteadyStageComputes(st: Stage<real>, e: Element)
    requires RunsElement(st, e) && Rowless(e) && e.Extent(0) > 0 && Steady(e)
    ensures Computes(st, SteadyCells(e).AsWindow(), SteadyCells(e).width)
  {
    var k := SteadyCells(e);
    BatchesByRows(e.Extent(0), 1, e.OutRow());
    forall n: nat, flat: seq<real> | |flat| == n * k.rowSize && n >= 1
        ensures st.kernel(n, flat) == Produced(n, k.Cells(n, flat, n)) {
      SteadyOutput(e, n, flat);
    }
    RowLocalComputes(st, k);
  }

  lemma RowOfWindow(st: Stage<real>, e: Element, w: Window<real>, outSize: nat)
    requires RunsElement(st, e) && Computes(st, w, outSize)
    ensures Rowless(e) && e.Extent(0) > 0 && outSize == e.Extent(0) * e.OutRow()
  {
    var z := Row(e, 0.0);
    RunOneRow(st, w, outSize, z);
    ShapesCombine(e, 1);
    RowsAreInput(e, 1);
    assert Rowless(e);
    KernelSize(e, 1, z);
  }

  /** Place b of one row's output is place b / 2 of two rows' output, for the row of b's parity. */
  lemma HalvesAgree(st: Stage<real>, e: Element, w: Window<real>, outSize: nat, b: nat, jw: nat, jc: nat, v: real,
                    v': real)
    requires RunsElement(st, e) && Computes(st, w, outSize) && Rowless(e) && Place(e, b, jw, jc)
    ensures Place(e, b / 2, jw, jc)
    ensures Answer(e, b, jw, jc, v) == Answer(e, b / 2, jw, jc, if b % 2 == 0 then v else v')
  {
    var r, t := Row(e, v), Row(e, v');
    OneRowAnswer(e, b, jw, jc, v);
    TwoRowsAnswer(e, b, jw, jc, v, v');
    RunOneRow(st, w, outSize, r);
    RunTwoRows(st, w, outSize, r, t);
  }

  lemma OneRowAnswer(e: Element, b: nat, jw: nat, jc: nat, v: real)
    requires ElementOk(e) && Rowless(e) && Place(e, b, jw, jc)
    ensures var k, i := ElementKernel(e, 1, Row(e, v)), OutputAt(e, 1, b, 0, jw, jc);
            k.Produced? && 0 <= i < |k.flat| && k.flat[i] == Answer(e, b, jw, jc, v)
  {
    RowSourceInside(e, jw, jc);
    assert 0 * e.RowSize() == 0;
    KernelAt(e, 1, Row(e, v), b, 0, jw, jc);
  }

  lemma TwoRowsAnswer(e: Element, b: nat, jw: nat, jc: nat, v: real, v': real)
    requires ElementOk(e) && Rowless(e) && Place(e, b, jw, jc)
    ensures Place(e, b / 2, jw, jc)
    ensures var k, i := ElementKernel(e, 2, Row(e, v) + Row(e, v')), OutputAt(e, 1, b, 0, jw, jc);
            && k.Produced? && 0 <= i < |k.flat|
            && k.flat[i] == Answer(e, b / 2, jw, jc, if b % 2 == 0 then v else v')
  {
    RowSourceInside(e, jw, jc);
    KernelAt(e, 2, Row(e, v) + Row(e, v'), b / 2, b % 2, jw, jc);
    assert (b / 2) * 2 + b % 2 == b * 1 + 0;
    TwoRowsValue(e, v, v', b % 2, RowSource(e, jw, jc));
  }

  lemma TwoRowsValue(e: Element, v: real, v': real, o: nat, x: nat)
    requires x < e.RowSize() && o < 2
    ensures 0 <= o * e.RowSize() + x < |Row(e, v) + Row(e, v')|
    ensures (Row(e, v) + Row(e, v'))[o * e.RowSize() + x] == if o == 0 then v else v'
  {
  }

  lemma {:induction false} OneAnswer(st: Stage<real>, e: Element, w: Window<real>, outSize: nat, b: nat, jw: nat,
      jc: nat, v: real)
    requires RunsElement(st, e) && Computes(st, w, outSize) && Rowless(e) && e.Extent(0) > 1 && Place(e, b, jw, jc)
    ensures Place(e, 0, jw, jc) && Answer(e, b, jw, jc, v) == Answer(e, 0, jw, jc, 0.0)
    decreases b
  {
    HalvesAgree(st, e, w, outSize, 1, jw, jc, v, 0.0);
    if b == 0 {
      HalvesAgree(st, e, w, outSize, 1, jw, jc, v, v);
    } else if b > 1 {
      HalvesAgree(st, e, w, outSize, b, jw, jc, v, v);
      OneAnswer(st, e, w, outSize, b / 2, jw, jc, v);
    }
  }

  lemma WindowMeans(st: Stage<real>, e: Element, w: Window<real>, outSize: nat)
    requires RunsElement(st, e) && Computes(st, w, outSize)
    ensures Rowless(e) && (e.Extent(0) == 1 || (e.Extent(0) > 1 && Steady(e)))
  {
    RowOfWindow(st, e, w, outSize);
    if e.Extent(0) > 1 {
      forall b: nat, b': nat, jw: nat, jc: nat, v: real, v': real | Place(e, b, jw, jc) && Place(e, b', jw, jc)
        ensures Answer(e, b, jw, jc, v) == Answer(e, b', jw, jc, v')
      {
        OneAnswer(st, e, w, outSize, b, jw, jc, v);
        OneAnswer(st, e, w, outSize, b', jw, jc, v');
      }
    }
  }

  /**
   An element-wise stage computes a window if and only if its constant has extent 1 along time and either
   extent 1 along the batch axis too, or a larger one there that never shows: at every column the
   operator has one answer for all inputs and batches. Validation looks only at the time extent, and
   only at constants with all four axes.
   */
  lemma ElementComputesIff(st: Stage<real>, e: Element)
    requires RunsElement(st, e)
    ensures (exists w: Window<real>, outSize: nat :: Computes(st, w, outSize))
      <==> Timeless(e) || (Rowless(e) && e.Extent(0) > 1 && Steady(e))
  {
    if Timeless(e) {
      ElementStageComputes(st, e);
    } else if Rowless(e) && e.Extent(0) > 1 && Steady(e) {
      SteadyStageComputes(st, e);
    }
    forall w: Window<real>, outSize: nat | Computes(st, w, outSize)
      ensures Timeless(e) || (Rowless(e) && e.Extent(0) > 1 && Steady(e))
    {
      WindowMeans(st, e, w, outSize);
    }
  }

  /**
   A constant of three axes that varies along time passes validation, and then only feeds of exactly
   its length do.
   */
  lemma LowerRankConstant(st: Stage<real>, e: Element, k: nat, pending: seq<real>, rows: seq<real>)
    requires RunsElement(st, e) && e.constant.shape == [k, e.width, e.channels] && k > 1
    requires |pending| % st.rowSize == 0 && |rows| % st.rowSize == 0 && |pending + rows| / st.rowSize >= 1
    ensures Validated(e.constant.shape) && !Timeless(e)
    ensures RunSpec(st, pending, rows).0.Rows? <==> |pending + rows| / st.rowSize == k
  {
    assert e.Extent(1) == k;
    FeedPassesIff(st, e, pending, rows);
  }
}

/** Operators that transform each value on its own, as stream stages. */
module UnaryStage {
  import opened Arith
  import opened Stream
  import opened TimeStage

  function Mapped(f: real -> real, x: seq<real>): (y: seq<real>)
    ensures |y| == |x|
  {
    seq(|x|, i requires 0 <= i < |x| => f(x[i]))
  }

  method MapEach(f: real -> real, x: seq<real>) returns (y: array<real>)
    ensures fresh(y) && y[..] == Mapped(f, x)
  {
    y := new real[|x|];
    for i := 0 to |x|
      invariant forall k :: 0 <= k < i ==> y[k] == f(x[k])
    {
      y[i] := f(x[i]);
    }
  }

  /** The stage configured for such an operator. */
  ghost predicate RunsUnary(st: Stage<real>, rowSize: nat, f: real -> real) {
    && st.rowSize == rowSize > 0 && st.need == 1 && st.consume == 1
    && forall n: nat, flat: seq<real> {:trigger st.kernel(n, flat)} :: |flat| == n * rowSize ==>
      st.kernel(n, flat) == Produced(n, Mapped(f, flat))
  }

  function UnaryCells(rowSize: nat, f: real -> real): RowKernel {
    RowKernel(rowSize, 1, 1, rowSize,
      (n: nat, flat: seq<real>, o: nat, j: nat) => if 0 <= o * rowSize + j < |flat| then f(flat[o * rowSize + j])
          else 0.0)
  }

  lemma UnaryIsLocal(rowSize: nat, f: real -> real)
    requires rowSize > 0
    ensures UnaryCells(rowSize, f).Valid() && UnaryCells(rowSize, f).Local()
  {
    var k := UnaryCells(rowSize, f);
    forall n: nat, flat: seq<real>, o: nat, j: nat, piece: seq<real>
      | |flat| == n * k.rowSize && o * k.consume + k.need <= n && j < k.width && k.Piece(flat, o, piece)
      ensures k.cell(n, flat, o, j) == k.cell(k.need, piece, 0, j)
    {
      RowPiece(k, n, flat, o, piece);
      assert 0 * rowSize + j == j;
    }
  }

  lemma OutputIsCells(rowSize: nat, f: real -> real, n: nat, flat: seq<real>)
    requires rowSize > 0 && |flat| == n * rowSize
    ensures Mapped(f, flat) == UnaryCells(rowSize, f).Cells(n, flat, n)
  {
    CellsLength(UnaryCells(rowSize, f), n, flat, n);
    forall i | 0 <= i < |flat| ensures Mapped(f, flat)[i] == UnaryCells(rowSize, f).Cells(n, flat, n)[i] {
      CellsAt(UnaryCells(rowSize, f), n, flat, n, i);
      CellPosition(i, n, rowSize);
    }
  }

  /** Transforming each value on its own is a window operator over single rows. */
  lemma UnaryStageComputes(st: Stage<real>, rowSize: nat, f: real -> real)
    requires RunsUnary(st, rowSize, f)
    ensures Computes(st, UnaryCells(rowSize, f).AsWindow(), rowSize)
  {
    var k := UnaryCells(rowSize, f);
    UnaryIsLocal(rowSize, f);
    forall n: nat, flat: seq<real> | |flat| == n * k.rowSize && n >= 1
        ensures st.kernel(n, flat) == Produced(n, k.Cells(n, flat, n)) {
      OutputIsCells(rowSize, f, n, flat);
    }
    RowLocalComputes(st, k);
  }
}

/** Chains of the layers a stream accepts, from their kernels to the whole model. */
module Layers {
  import opened Rows
  import opened Windows
  import opened Stream
  import Conv
  import MaxPool
  import C = ConvStage
  import M = PoolStage
  import E = ElementStage
  import P = PadStage
  import U = UnaryStage

  datatype Kind =
    | Convolution(layer: Conv.Layer)
    | Pooling(pool: MaxPool.Pool)
    | Elementwise(element: E.Element)
    | Padded(padding: P.Padding)
    | Unary(rowSize: nat, f: real -> real)

  /** The stage is configured for this layer and runs its kernel. */
  ghost predicate Runs(st: Stage<real>, k: Kind) {
    match k
    case Convolution(l) => C.RunsConv(st, l)
    case Pooling(p) => M.RunsPool(st, p)
    case Elementwise(e) => E.RunsElement(st, e)
    case Padded(d) => P.RunsPad(st, d)
    case Unary(n, f) => U.RunsUnary(st, n, f)
  }

  /**
   What validation accepts and, beyond it, what makes the stage a window operator whose rows the
   next layer can take.
   */
  ghost predicate Suits(k: Kind) {
    match k
    case Convolution(l) => C.Accepted(l) && C.Undilated(l)
    case Pooling(p) => M.Accepted(p)
    case Elementwise(e) => E.ElementOk(e) && E.Timeless(e)
    case Padded(d) => P.PaddingOk(d) && P.OneBatch(d) && P.Inside(d)
    case Unary(n, _) => n > 0
  }

  function RowIn(k: Kind): int {
    match k
    case Convolution(l) => l.iw * l.ic
    case Pooling(p) => p.iw * p.c
    case Elementwise(e) => e.RowSize()
    case Padded(d) => d.RowSize()
    case Unary(n, _) => n
  }

  ghost function RowOut(k: Kind): nat
    requires Suits(k)
  {
    match k
    case Convolution(l) => C.RowWidth(l)
    case Pooling(p) => M.RowWidth(p)
    case Elementwise(e) => e.OutRow()
    case Padded(d) => d.OutRow()
    case Unary(n, _) => n
  }

  ghost function WindowOf(k: Kind): Window<real>
    requires Suits(k)
  {
    match k
    case Convolution(l) => C.ConvCells(l).AsWindow()
    case Pooling(p) => M.PoolCells(p).AsWindow()
    case Elementwise(e) => E.ElementCells(e).AsWindow()
    case Padded(d) => P.PadCells(d).AsWindow()
    case Unary(n, f) => U.UnaryCells(n, f).AsWindow()
  }

  lemma LayerComputes(st: Stage<real>, k: Kind)
    requires Runs(st, k) && Suits(k)
    ensures Computes(st, WindowOf(k), RowOut(k)) && st.rowSize == RowIn(k) > 0
  {
    match k
    case Convolution(l) => C.ConvStageComputes(st, l);
    case Pooling(p) => M.PoolStageComputes(st, p);
    case Elementwise(e) => E.ElementStageComputes(st, e);
    case Padded(d) => P.PadStageComputes(st, d);
    case Unary(n, f) => U.UnaryStageComputes(st, n, f);
  }

  /** Every layer suits, and each takes the rows the one before it makes. */
  ghost predicate Fits(kinds: seq<Kind>) {
    && kinds != []
    && (forall i :: 0 <= i < |kinds| ==> Suits(kinds[i]))
    && (forall i :: 0 <= i < |kinds| - 1 ==> RowOut(kinds[i]) == RowIn(kinds[i + 1]))
  }

  ghost predicate RunsAll(stages: seq<Stage<real>>, kinds: seq<Kind>) {
    |stages| == |kinds| && forall i :: 0 <= i < |kinds| ==> Runs(stages[i], kinds[i])
  }

  ghost function Chain(kinds: seq<Kind>): (c: seq<Window<real>>)
    requires Fits(kinds)
    ensures |c| == |kinds|
  {
    seq(|kinds|, i requires 0 <= i < |kinds| => WindowOf(kinds[i]))
  }

  ghost function Widths(kinds: seq<Kind>): (w: seq<nat>)
    requires Fits(kinds) && RowIn(kinds[0]) >= 0
    ensures |w| == |kinds| + 1
  {
    [RowIn(kinds[0]) as nat] + seq(|kinds|, i requires 0 <= i < |kinds| => RowOut(kinds[i]))
  }

  lemma ChainComputes(stages: seq<Stage<real>>, kinds: seq<Kind>)
    requires Fits(kinds) && RunsAll(stages, kinds)
    ensures RowIn(kinds[0]) > 0 && StreamComputes(stages, Chain(kinds), Widths(kinds))
  {
    LayerComputes(stages[0], kinds[0]);
    var chain, widths := Chain(kinds), Widths(kinds);
    forall i | 0 <= i < |kinds|
      ensures Computes(stages[i], chain[i], widths[i + 1]) && stages[i].rowSize == widths[i] && chain[i].Valid()
        && stages[i].Configured()
    {
      LayerComputes(stages[i], kinds[i]);
    }
  }

  /**
   For every chain of suitable layers and every split of its input rows into Write calls, no call
   fails, and the returned values together are the composed layers over the whole input; with
   enough rows for one output row, they are what running each kernel once on the whole input gives.
   */
  lemma LayersAreWholeModel(stages: seq<Stage<real>>, kinds: seq<Kind>, chunks: seq<seq<real>>)
    requires Fits(kinds) && RunsAll(stages, kinds)
    requires RowIn(kinds[0]) > 0 && WholeRows(chunks, RowIn(kinds[0]))
    ensures AllConfigured(stages)
    ensures var written := WriteAll(stages, seq(|stages|, _ => []), chunks);
            && written == Rows(Join(Whole(Chain(kinds), Split(Join(chunks), RowIn(kinds[0])))))
            && (written.flat != [] ==> written == Invoke(stages, Join(chunks)))
  {
    ChainComputes(stages, kinds);
    StreamIsWholeModel(stages, Chain(kinds), Widths(kinds), chunks);
    WholeJoined(chunks, RowIn(kinds[0]));
    var rows := Split(Join(chunks), RowIn(kinds[0]));
    if Whole(Chain(kinds), rows) != [] {
      WholeIsInvoke(stages, Chain(kinds), Widths(kinds), Join(chunks));
    }
  }

  /**
   The stream against the windowed model: row k of what it has written is what running each kernel
   once on rows k * S to k * S + W gives, with the chain's stride S and reach W.
   */
  lemma StreamIsWindowedModel(stages: seq<Stage<real>>, kinds: seq<Kind>, chain: seq<Window<real>>,
                              chunks: seq<seq<real>>, n: int, k: nat, from: nat)
    requires Fits(kinds) && RunsAll(stages, kinds) && chain == Chain(kinds) && n == RowIn(kinds[0])
    requires n > 0 && WholeRows(chunks, n) && ValidChain(chain)
    requires from == k * Stride(chain) && from + Reach(chain) <= |Join(chunks)| / n
    ensures AllConfigured(stages)
    ensures var rows := Whole(chain, Split(Join(chunks), n));
            && WriteAll(stages, seq(|stages|, _ => []), chunks) == Rows(Join(rows))
            && k < |rows|
            && Invoke(stages, RowsOf(Join(chunks), n, from, from + Reach(chain))) == Rows(rows[k])
  {
    ChainComputes(stages, kinds);
    StreamIsWindowed(stages, chain, Widths(kinds), chunks, k, from);
  }

  lemma {:induction false} WholeJoined(chunks: seq<seq<real>>, n: nat)
    requires n > 0 && WholeRows(chunks, n)
    ensures |Join(chunks)| % n == 0
  {
    if chunks != [] {
      WholeJoined(chunks[1..], n);
      WholeSum(|chunks[0]|, |Join(chunks[1..])|, n);
    }
  }
}

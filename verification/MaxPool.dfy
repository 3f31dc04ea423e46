/** Max pooling over NHWC buffers, and as a stream stage. */
module MaxPool {
  import opened Arith
  import opened Nhwc
  import opened Wrappers
  import opened Conv

  /** The larger of a running best and a value; None is the source's starting value, minus infinity. */
  function Larger(best: Option<real>, v: real): Option<real> {
    if best.None? || v > best.value then Some(v) else best
  }

  // ---------------------------------------------------------------- the maximum of a window

  /** The best after the first n taps of row ky; a tap outside the image has no value. */
  function RowBest(tap: (nat, nat) -> Option<real>, ky: nat, n: nat, start: Option<real>): Option<real> {
    if n == 0 then start else
      var best := RowBest(tap, ky, n - 1, start);
      if tap(ky, n - 1).Some? then Larger(best, tap(ky, n - 1).value) else best
  }

  /** The best after the first m rows of n taps each. */
  function Best(tap: (nat, nat) -> Option<real>, m: nat, n: nat): Option<real> {
    if m == 0 then None else RowBest(tap, m - 1, n, Best(tap, m - 1, n))
  }

  /** v is no larger than the running best. */
  ghost predicate Covered(best: Option<real>, v: real) {
    best.Some? && v <= best.value
  }

  lemma {:induction false} RowKeeps(tap: (nat, nat) -> Option<real>, ky: nat, n: nat, start: Option<real>)
    requires start.Some?
    ensures Covered(RowBest(tap, ky, n, start), start.value)
  {
    if n > 0 {
      RowKeeps(tap, ky, n - 1, start);
    }
  }

  lemma {:induction false} RowCovers(tap: (nat, nat) -> Option<real>, ky: nat, n: nat, start: Option<real>, kx: nat)
    requires kx < n && tap(ky, kx).Some?
    ensures Covered(RowBest(tap, ky, n, start), tap(ky, kx).value)
  {
    if kx < n - 1 {
      RowCovers(tap, ky, n - 1, start, kx);
    }
  }

  lemma {:induction false} RowAttained(tap: (nat, nat) -> Option<real>, ky: nat, n: nat, start: Option<real>)
    returns (kx: nat)
    ensures RowBest(tap, ky, n, start) == start
      || (kx < n && tap(ky, kx).Some? && RowBest(tap, ky, n, start) == tap(ky, kx))
  {
    kx := 0;
    if n > 0 {
      kx := RowAttained(tap, ky, n - 1, start);
      if RowBest(tap, ky, n, start) != RowBest(tap, ky, n - 1, start) {
        kx := n - 1;
      }
    }
  }

  lemma {:induction false} BestCovers(tap: (nat, nat) -> Option<real>, m: nat, n: nat, ky: nat, kx: nat)
    requires ky < m && kx < n && tap(ky, kx).Some?
    ensures Covered(Best(tap, m, n), tap(ky, kx).value)
  {
    if ky < m - 1 {
      BestCovers(tap, m - 1, n, ky, kx);
      RowKeeps(tap, m - 1, n, Best(tap, m - 1, n));
    } else {
      RowCovers(tap, m - 1, n, Best(tap, m - 1, n), kx);
    }
  }

  lemma {:induction false} BestAttained(tap: (nat, nat) -> Option<real>, m: nat, n: nat) returns (ky: nat, kx: nat)
    requires Best(tap, m, n).Some?
    ensures ky < m && kx < n && tap(ky, kx) == Best(tap, m, n)
  {
    ky := m - 1;
    kx := RowAttained(tap, m - 1, n, Best(tap, m - 1, n));
    if Best(tap, m, n) == Best(tap, m - 1, n) {
      ky, kx := BestAttained(tap, m - 1, n);
    }
  }

  /** v is the maximum of the values under an m x n window. */
  ghost predicate IsMaximum(tap: (nat, nat) -> Option<real>, m: nat, n: nat, v: real) {
    && (exists ky: nat, kx: nat :: ky < m && kx < n && tap(ky, kx) == Some(v))
    && (forall ky: nat, kx: nat :: ky < m && kx < n && tap(ky, kx).Some? ==> tap(ky, kx).value <= v)
  }

  lemma BestIsMaximum(tap: (nat, nat) -> Option<real>, m: nat, n: nat)
    requires Best(tap, m, n).Some?
    ensures IsMaximum(tap, m, n, Best(tap, m, n).value)
  {
    var ky, kx := BestAttained(tap, m, n);
    forall ky: nat, kx: nat | ky < m && kx < n && tap(ky, kx).Some? ensures tap(ky, kx).value <= Best(tap, m, n).value {
      BestCovers(tap, m, n, ky, kx);
    }
  }

  lemma {:induction false} RowSame(tap: (nat, nat) -> Option<real>, tap': (nat, nat) -> Option<real>, ky: nat, n: nat,
      start: Option<real>)
    requires forall kx: nat :: kx < n ==> tap(ky, kx) == tap'(ky, kx)
    ensures RowBest(tap, ky, n, start) == RowBest(tap', ky, n, start)
  {
    if n > 0 {
      RowSame(tap, tap', ky, n - 1, start);
    }
  }

  lemma {:induction false} BestSame(tap: (nat, nat) -> Option<real>, tap': (nat, nat) -> Option<real>, m: nat, n: nat)
    requires forall ky: nat, kx: nat :: ky < m && kx < n ==> tap(ky, kx) == tap'(ky, kx)
    ensures Best(tap, m, n) == Best(tap', m, n)
  {
    if m > 0 {
      BestSame(tap, tap', m - 1, n);
      RowSame(tap, tap', m - 1, n, Best(tap, m - 1, n));
    }
  }

  // ---------------------------------------------------------------- pooling an image

  datatype Pool = Pool(batch: nat, ih: nat, iw: nat, c: nat, fh: nat, fw: nat, strideH: nat, strideW: nat,
                       samePad: bool, padH: nat, padW: nat, x: seq<real>, activate: real -> real)
  {
    ghost predicate Valid() {
      && strideH > 0 && strideW > 0 && fh > 0 && fw > 0
      && |x| == batch * ih * iw * c
    }

    /** The padding that the geometry asks for. */
    predicate Padded()
      requires strideH > 0 && strideW > 0
    {
      && padH == PadBefore(ih, fh, strideH, 1, samePad)
      && padW == PadBefore(iw, fw, strideW, 1, samePad)
    }

    /** The same pool with that padding. */
    function WithPadding(): (p: Pool)
      requires strideH > 0 && strideW > 0
      ensures p.strideH == strideH && p.strideW == strideW && p.Padded() && (Padded() ==> p == this)
        && (Valid() ==> p.Valid())
    {
      this.(padH := PadBefore(ih, fh, strideH, 1, samePad), padW := PadBefore(iw, fw, strideW, 1, samePad))
    }

    function OutH(): nat
      requires strideH > 0
    {
      OutputSize(ih, fh, strideH, 1, samePad)
    }

    function OutW(): nat
      requires strideW > 0
    {
      OutputSize(iw, fw, strideW, 1, samePad)
    }

    /** Image value at a coordinate, none outside. */
    function Pixel(b: nat, iy: int, ix: int, ch: nat): Option<real> {
      if 0 <= iy < ih && 0 <= ix < iw then Some(Value(x, ((b * ih + iy) * iw + ix) * c + ch)) else None
    }

    /** The image values under the window whose top left tap is at (y0, x0). */
    function Taps(b: nat, y0: int, x0: int, ch: nat): (nat, nat) -> Option<real> {
      (ky: nat, kx: nat) => Pixel(b, y0 + ky, x0 + kx, ch)
    }

    /** The pooled value of the window at (y0, x0). */
    function AtCorner(b: nat, y0: int, x0: int, ch: nat): real {
      Activated(this, Best(Taps(b, y0, x0, ch), fh, fw))
    }

    function At(b: nat, oy: nat, ox: nat, ch: nat): real {
      AtCorner(b, TapAt(oy, 0, strideH, 1, padH), TapAt(ox, 0, strideW, 1, padW), ch)
    }
  }

  lemma TapsAt(p: Pool, b: nat, y0: int, x0: int, ch: nat, ky: nat, kx: nat)
    ensures p.Taps(b, y0, x0, ch)(ky, kx) == p.Pixel(b, y0 + ky, x0 + kx, ch)
  {
  }

  function Activated(p: Pool, best: Option<real>): real {
    if best.Some? then p.activate(best.value) else 0.0
  }

  /** A pooled value is the activated maximum of its window, and no output position has an empty window. */
  lemma PoolIsMaximum(p: Pool, b: nat, oy: nat, ox: nat, ch: nat)
    requires p.Valid() && p.Padded() && oy < p.OutH() && ox < p.OutW()
    ensures var tap := p.Taps(b, TapAt(oy, 0, p.strideH, 1, p.padH), TapAt(ox, 0, p.strideW, 1, p.padW), ch);
            exists m: real :: IsMaximum(tap, p.fh, p.fw, m) && p.At(b, oy, ox, ch) == p.activate(m)
  {
    var ky := SomeTap(p.ih, p.fh, p.strideH, p.samePad, oy, p.padH);
    var kx := SomeTap(p.iw, p.fw, p.strideW, p.samePad, ox, p.padW);
    CornerIsMaximum(p, b, TapAt(oy, 0, p.strideH, 1, p.padH), TapAt(ox, 0, p.strideW, 1, p.padW), ch, ky, kx);
  }

  lemma CornerIsMaximum(p: Pool, b: nat, y0: int, x0: int, ch: nat, ky: nat, kx: nat)
    requires ky < p.fh && kx < p.fw && 0 <= y0 + ky < p.ih && 0 <= x0 + kx < p.iw
    ensures exists m: real ::
      IsMaximum(p.Taps(b, y0, x0, ch), p.fh, p.fw, m) && p.AtCorner(b, y0, x0, ch) == p.activate(m)
  {
    TapsAt(p, b, y0, x0, ch, ky, kx);
    BestCovers(p.Taps(b, y0, x0, ch), p.fh, p.fw, ky, kx);
    BestIsMaximum(p.Taps(b, y0, x0, ch), p.fh, p.fw);
  }

  lemma SomeTap(size: nat, filter: nat, stride: nat, samePad: bool, o: nat, pad: nat) returns (k: nat)
    requires stride > 0 && filter > 0 && o < OutputSize(size, filter, stride, 1, samePad)
    requires pad == PadBefore(size, filter, stride, 1, samePad)
    ensures k < filter && 0 <= TapAt(o, 0, stride, 1, pad) + k < size
  {
    if samePad {
      SameWindowNeverEmpty(size, filter, stride, o);
      k :| 0 <= k < filter && 0 <= TapAt(o, k, stride, 1, pad) < size;
    } else {
      ValidTapsInside(size, filter, stride, 1, o);
      assert 0 <= TapAt(o, 0, stride, 1, 0) < size;
      k := 0;
    }
  }

  // ---------------------------------------------------------------- the kernel

  lemma PixelInside(p: Pool, b: nat, iy: int, ix: int, ch: nat)
    requires p.Valid() && b < p.batch && 0 <= iy < p.ih && 0 <= ix < p.iw && ch < p.c
    ensures 0 <= ((b * p.ih + iy) * p.iw + ix) * p.c + ch < |p.x|
    ensures p.Pixel(b, iy, ix, ch) == Some(p.x[((b * p.ih + iy) * p.iw + ix) * p.c + ch])
  {
    RadixBound(b, p.batch, iy, p.ih);
    RadixBound(b * p.ih + iy, p.batch * p.ih, ix, p.iw);
    RadixBound((b * p.ih + iy) * p.iw + ix, p.batch * p.ih * p.iw, ch, p.c);
  }

  /** The largest value under one window. */
  method WindowMax(p: Pool, b: nat, y0: int, x0: int, ch: nat) returns (best: Option<real>)
    requires p.Valid() && b < p.batch && ch < p.c
    ensures best == Best(p.Taps(b, y0, x0, ch), p.fh, p.fw)
  {
    best := None;
    for ky := 0 to p.fh
      invariant best == Best(p.Taps(b, y0, x0, ch), ky, p.fw)
    {
      var iy := y0 + ky;
      if iy < 0 || iy >= p.ih {
        forall kx: nat | kx < p.fw ensures p.Taps(b, y0, x0, ch)(ky, kx).None? {
          TapsAt(p, b, y0, x0, ch, ky, kx);
        }
        RowSkipped(p.Taps(b, y0, x0, ch), ky, p.fw, best);
      } else {
        forall kx: nat ensures p.Taps(b, y0, x0, ch)(ky, kx) == p.Pixel(b, iy, x0 + kx, ch) {
          TapsAt(p, b, y0, x0, ch, ky, kx);
        }
        best := RowMax(p, b, iy, x0, ch, best, p.Taps(b, y0, x0, ch), ky);
      }
    }
  }

  method RowMax(p: Pool, b: nat, iy: nat, x0: int, ch: nat, start: Option<real>,
                ghost tap: (nat, nat) -> Option<real>, ghost ky: nat) returns (best: Option<real>)
    requires p.Valid() && b < p.batch && ch < p.c && iy < p.ih
    requires forall kx: nat :: tap(ky, kx) == p.Pixel(b, iy, x0 + kx, ch)
    ensures best == RowBest(tap, ky, p.fw, start)
  {
    best := start;
    for kx := 0 to p.fw
      invariant best == RowBest(tap, ky, kx, start)
    {
      var ix := x0 + kx;
      if 0 <= ix < p.iw {
        PixelInside(p, b, iy, ix, ch);
        var v := p.x[((b * p.ih + iy) * p.iw + ix) * p.c + ch];
        if best.None? || v > best.value {
          best := Some(v);
        }
      }
    }
  }

  lemma {:induction false} RowSkipped(tap: (nat, nat) -> Option<real>, ky: nat, n: nat, start: Option<real>)
    requires forall kx: nat :: kx < n ==> tap(ky, kx).None?
    ensures RowBest(tap, ky, n, start) == start
  {
    if n > 0 {
      RowSkipped(tap, ky, n - 1, start);
    }
  }

  function PooledValues(p: Pool): (nat, nat, nat, nat) -> real {
    (b: nat, oy: nat, ox: nat, ch: nat) => p.At(b, oy, ox, ch)
  }

  /** The output buffer: every pooled value at its row-major position. */
  function Pooled(p: Pool): (y: seq<real>)
    requires p.Valid()
  {
    Image(p.batch, p.OutH(), p.OutW(), p.c, PooledValues(p))
  }

  /** The kernel works out the padding itself. */
  method MaxPool2D(g: Pool) returns (y: array<real>)
    requires g.Valid()
    ensures fresh(y) && y[..] == Pooled(g.WithPadding())
  {
    var oh, ow := g.OutH(), g.OutW();
    var padH, padW := 0, 0;
    if g.samePad {
      padH := PadFor(g.strideH, 1, g.ih, g.fh, oh);
      padW := PadFor(g.strideW, 1, g.iw, g.fw, ow);
    }
    var p := g.(padH := padH, padW := padW);
    assert p == g.WithPadding();
    y := PoolImage(p, oh, ow);
  }

  method PoolImage(p: Pool, oh: nat, ow: nat) returns (y: array<real>)
    requires p.Valid() && oh == p.OutH() && ow == p.OutW()
    ensures fresh(y) && y[..] == Pooled(p)
  {
    ghost var at := PooledValues(p);
    y := new real[Count(p.batch, oh, ow, p.c)];
    var yi := 0;
    for b := 0 to p.batch
      invariant yi == b * oh * ow * p.c
      invariant Filled(y, yi, oh, ow, p.c, at)
    {
      for oy := 0 to oh
        invariant yi == (b * oh + oy) * ow * p.c
        invariant Filled(y, yi, oh, ow, p.c, at)
      {
        var y0 := oy * p.strideH - p.padH;
        for ox := 0 to ow
          invariant yi == ((b * oh + oy) * ow + ox) * p.c
          invariant Filled(y, yi, oh, ow, p.c, at)
        {
          var x0 := ox * p.strideW - p.padW;
          for ch := 0 to p.c
            invariant yi == ((b * oh + oy) * ow + ox) * p.c + ch
            invariant Filled(y, yi, oh, ow, p.c, at)
          {
            var best := WindowMax(p, b, y0, x0, ch);
            PositionInRange(p.batch, oh, ow, p.c, b, oy, ox, ch);
            CellAt(oh, ow, p.c, at, b, oy, ox, ch, yi);
            y[yi] := Activated(p, best);
            yi := yi + 1;
          }
          MulDist((b * oh + oy) * ow + ox, 1, p.c);
        }
        RowDone(b * oh + oy, ow, p.c);
      }
      ImageDone(b, oh, ow, p.c);
    }
  }
}

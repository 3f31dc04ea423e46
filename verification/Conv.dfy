/** Two-dimensional convolution over NHWC buffers, and the output geometry it shares with pooling. */
module Conv {
  import opened Arith
  import opened Nhwc
  import opened Vec
  import opened Windows
  import opened Wrappers

  // ---------------------------------------------------------------- geometry

  function Effective(filter: nat, dilation: nat): int {
    (filter - 1) * dilation + 1
  }

  function OutputSize(size: nat, filter: nat, stride: nat, dilation: nat, samePad: bool): (n: nat)
    requires stride > 0
  {
    if samePad then (size + stride - 1) / stride
    else if size < Effective(filter, dilation) then 0
    else (size - Effective(filter, dilation)) / stride + 1
  }

  /** Half of the padding SAME needs, the smaller half first. The dividend is halved toward zero. */
  function PadFor(stride: nat, dilation: nat, size: nat, filter: nat, out: int): (p: nat) {
    var total := (out - 1) * stride + Effective(filter, dilation) - size;
    if total < 0 then 0 else total / 2
  }

  function PadBefore(size: nat, filter: nat, stride: nat, dilation: nat, samePad: bool): nat
    requires stride > 0
  {
    if samePad then PadFor(stride, dilation, size, filter, OutputSize(size, filter, stride, dilation, samePad)) else 0
  }

  /** Input coordinate read by tap k of output position o. */
  function TapAt(o: int, k: int, stride: int, dilation: int, pad: int): int {
    o * stride - pad + k * dilation
  }

  lemma TimeTap(oy: nat, ky: nat, stride: nat, dilation: nat, r0: nat)
    requires r0 == oy * stride && (ky == 0 || dilation == 1)
    ensures TapAt(oy, ky, stride, dilation, 0) == r0 + ky
    ensures TapAt(0, ky, stride, dilation, 0) == ky
  {
  }

  /** A window along time that is accepted by a stream has no padding there. */
  lemma TimeGeometry(n: nat, filter: nat, stride: nat, dilation: nat, samePad: bool)
    requires 1 <= stride <= filter && !(filter > 1 && samePad)
    ensures PadBefore(n, filter, stride, dilation, samePad) == 0
    ensures filter == 1 || dilation == 1 ==>
      OutputSize(n, filter, stride, dilation, samePad) == Positions(filter, stride, n)
  {
    if filter == 1 {
      assert Effective(filter, dilation) == 1;
    }
  }

  /** Without padding, the output positions are exactly those whose every tap lies inside the input. */
  lemma ValidTapsInside(size: nat, filter: nat, stride: nat, dilation: nat, o: nat)
    requires stride > 0 && filter > 0 && dilation > 0
    ensures o < OutputSize(size, filter, stride, dilation, false) <==>
            forall k {:trigger TapAt(o, k, stride, dilation, 0)} :: 0 <= k < filter ==>
              0 <= TapAt(o, k, stride, dilation, 0) < size
  {
    var e := Effective(filter, dilation);
    MulNonneg(filter - 1, dilation);
    MulNonneg(o, stride);
    StridesInside(size, e, stride, o);
    forall k | 0 <= k < filter
      ensures 0 <= k * dilation <= (filter - 1) * dilation
    {
      MulNonneg(k, dilation);
      MulMono(k, filter - 1, dilation);
    }
    assert TapAt(o, filter - 1, stride, dilation, 0) == o * stride + e - 1;
  }

  lemma StridesInside(size: nat, effective: nat, stride: nat, o: nat)
    requires stride > 0 && effective > 0
    ensures effective <= size ==> (o < (size - effective) / stride + 1 <==> o * stride + effective <= size)
    ensures effective > size ==> o * stride + effective > size
  {
    MulNonneg(o, stride);
    if effective <= size {
      var n := size - effective;
      var q := n / stride;
      assert n == stride * q + n % stride;
      if o <= q {
        MulMono(o, q, stride);
      } else {
        MulMono(q + 1, o, stride);
        MulDist(q, 1, stride);
      }
    }
  }

  /** With SAME padding and no dilation, every output position reads at least one input coordinate. */
  lemma SameWindowNeverEmpty(size: nat, filter: nat, stride: nat, o: nat)
    requires stride > 0 && filter > 0
    requires o < OutputSize(size, filter, stride, 1, true)
    ensures exists k {:trigger TapAt(o, k, stride, 1, PadBefore(size, filter, stride, 1, true))} ::
      0 <= k < filter && 0 <= TapAt(o, k, stride, 1, PadBefore(size, filter, stride, 1, true)) < size
  {
    var out := (size + stride - 1) / stride;
    var pad := PadBefore(size, filter, stride, 1, true);
    CeilBounds(size, stride, o);
    CeilBounds(size, stride, out - 1);
    MulNonneg(o, stride);
    var start := o * stride - pad;
    var k := if start < 0 then -start else 0;
    assert pad <= filter - 1;
    assert TapAt(o, k, stride, 1, pad) == start + k;
  }

  /**
   SAME padding: a stride reaches every input and no position is spared, and where the windows reach past the
   input, what hangs over its end is what hangs over its beginning or one more.
   */
  lemma SameIsBalanced(size: nat, filter: nat, stride: nat, dilation: nat)
    requires stride > 0 && filter > 0 && size > 0
    ensures var out, pad := OutputSize(size, filter, stride, dilation, true),
      PadBefore(size, filter, stride, dilation, true);
            var before := -TapAt(0, 0, stride, dilation, pad);
            var after := TapAt(out - 1, filter - 1, stride, dilation, pad) - (size - 1);
            && (out - 1) * stride < size <= out * stride
            && (before + after >= 0 ==> before <= after <= before + 1)
            && (before + after < 0 ==> before == 0)
  {
    var out := OutputSize(size, filter, stride, dilation, true);
    var q := size + stride - 1;
    assert q == stride * out + q % stride;
    assert stride * out == out * stride && (out - 1) * stride == out * stride - stride;
    var e := Effective(filter, dilation);
    assert TapAt(0, 0, stride, dilation, 0) == 0;
    assert e == (filter - 1) * dilation + 1;
    Halves((out - 1) * stride + e - size);
  }

  lemma Halves(total: int)
    ensures total >= 0 ==> 2 * (total / 2) <= total <= 2 * (total / 2) + 1
  {
  }

  lemma CeilBounds(size: nat, stride: nat, o: int)
    requires stride > 0 && 0 <= o < (size + stride - 1) / stride
    ensures o * stride < size
  {
    var q := (size + stride - 1) / stride;
    assert size + stride - 1 == stride * q + (size + stride - 1) % stride;
    MulMono(o + 1, q, stride);
    MulDist(o, 1, stride);
  }

  // ---------------------------------------------------------------- one output value

  /** One convolution: its geometry and its flat row-major input, filter and optional bias. */
  datatype Layer = Layer(batch: nat, ih: nat, iw: nat, ic: nat, oc: nat, kh: nat, kw: nat,
                         strideH: nat, strideW: nat, dilationH: nat, dilationW: nat, samePad: bool, padH: nat,
                             padW: nat,
                         x: seq<real>, w: seq<real>, bias: Option<seq<real>>, activate: real -> real)
  {
    ghost predicate Valid() {
      && strideH > 0 && strideW > 0
      && |x| == batch * ih * iw * ic
      && |w| == oc * kh * kw * ic
      && (bias.Some? ==> |bias.value| >= oc)
    }

    function OutH(): nat
      requires Valid()
    {
      OutputSize(ih, kh, strideH, dilationH, samePad)
    }

    function OutW(): nat
      requires Valid()
    {
      OutputSize(iw, kw, strideW, dilationW, samePad)
    }

    /** The padding that the geometry asks for. */
    predicate Padded()
      requires strideH > 0 && strideW > 0
    {
      && padH == PadBefore(ih, kh, strideH, dilationH, samePad)
      && padW == PadBefore(iw, kw, strideW, dilationW, samePad)
    }

    /** The same layer with that padding. */
    function WithPadding(): (l: Layer)
      requires strideH > 0 && strideW > 0
      ensures l.strideH == strideH && l.strideW == strideW && l.Padded() && (Padded() ==> l == this)
        && (Valid() ==> l.Valid())
    {
      this.(padH := PadBefore(ih, kh, strideH, dilationH, samePad),
          padW := PadBefore(iw, kw, strideW, dilationW, samePad))
    }

    predicate Inside(iy: int, ix: int) {
      0 <= iy < ih && 0 <= ix < iw
    }

    /** Input value at a coordinate, zero outside the image. */
    function Pixel(b: nat, iy: int, ix: int, ch: nat): real {
      if Inside(iy, ix) then Value(x, ((b * ih + iy) * iw + ix) * ic + ch) else 0.0
    }

    function Weight(f: nat, ky: nat, kx: nat, ch: nat): real {
      Value(w, ((f * kh + ky) * kw + kx) * ic + ch)
    }

    /** Sum over the first n channels at one tap. */
    function TapSum(b: nat, iy: int, ix: int, f: nat, ky: nat, kx: nat, n: nat): real {
      if n == 0 then 0.0
      else TapSum(b, iy, ix, f, ky, kx, n - 1) + Term(b, iy, ix, f, ky, kx, n - 1)
    }

    function Term(b: nat, iy: int, ix: int, f: nat, ky: nat, kx: nat, ch: nat): real {
      Pixel(b, iy, ix, ch) * Weight(f, ky, kx, ch)
    }

    /** Sum over the first n taps of one filter row. */
    function RowSum(b: nat, iy: int, ox: nat, f: nat, ky: nat, n: nat): real {
      if n == 0 then 0.0
      else RowSum(b, iy, ox, f, ky, n - 1)
           + TapSum(b, iy, TapAt(ox, n - 1, strideW, dilationW, padW), f, ky, n - 1, ic)
    }

    /** Sum over the first n filter rows. */
    function KernelSum(b: nat, oy: nat, ox: nat, f: nat, n: nat): real {
      if n == 0 then 0.0
      else KernelSum(b, oy, ox, f, n - 1)
           + RowSum(b, TapAt(oy, n - 1, strideH, dilationH, padH), ox, f, n - 1, kw)
    }

    /** The zero-padded sum over every tap and channel, plus the bias. */
    function At(b: nat, oy: nat, ox: nat, f: nat): real {
      (if bias.Some? then Value(bias.value, f) else 0.0) + KernelSum(b, oy, ox, f, kh)
    }
  }

  /** A buffer element; the kernels are shown never to ask for one outside the buffer. */
  function Value(s: seq<real>, i: int): real {
    if 0 <= i < |s| then s[i] else 0.0
  }

  /** A part of a buffer holds the buffer's values. */
  lemma SameValue(x: seq<real>, part: seq<real>, from: int, i: int, j: int)
    requires 0 <= from && from + |part| <= |x| && part == x[from..from + |part|]
    requires 0 <= j < |part| && i == from + j
    ensures Value(x, i) == Value(part, j)
  {
  }

  lemma PixelInside(l: Layer, b: nat, iy: int, ix: int, ch: nat)
    requires l.Valid() && b < l.batch && l.Inside(iy, ix) && ch < l.ic
    ensures 0 <= ((b * l.ih + iy) * l.iw + ix) * l.ic + ch < |l.x|
  {
    RadixBound(b, l.batch, iy, l.ih);
    RadixBound(b * l.ih + iy, l.batch * l.ih, ix, l.iw);
    RadixBound((b * l.ih + iy) * l.iw + ix, l.batch * l.ih * l.iw, ch, l.ic);
  }

  lemma WeightInside(l: Layer, f: nat, ky: nat, kx: nat, ch: nat)
    requires l.Valid() && f < l.oc && ky < l.kh && kx < l.kw && ch < l.ic
    ensures 0 <= ((f * l.kh + ky) * l.kw + kx) * l.ic + ch < |l.w|
  {
    RadixBound(f, l.oc, ky, l.kh);
    RadixBound(f * l.kh + ky, l.oc * l.kh, kx, l.kw);
    RadixBound((f * l.kh + ky) * l.kw + kx, l.oc * l.kh * l.kw, ch, l.ic);
  }

  lemma {:induction false} TapOutside(l: Layer, b: nat, iy: int, ix: int, f: nat, ky: nat, kx: nat, n: nat)
    requires !l.Inside(iy, ix)
    ensures l.TapSum(b, iy, ix, f, ky, kx, n) == 0.0
  {
    if n > 0 {
      TapOutside(l, b, iy, ix, f, ky, kx, n - 1);
    }
  }

  lemma {:induction false} RowOutside(l: Layer, b: nat, iy: int, ox: nat, f: nat, ky: nat, n: nat)
    requires !(0 <= iy < l.ih)
    ensures l.RowSum(b, iy, ox, f, ky, n) == 0.0
  {
    if n > 0 {
      RowOutside(l, b, iy, ox, f, ky, n - 1);
      TapOutside(l, b, iy, TapAt(ox, n - 1, l.strideW, l.dilationW, l.padW), f, ky, n - 1, l.ic);
    }
  }

  lemma RunInside(l: Layer, b: nat, iy: nat, ix: nat, f: nat, ky: nat, kx: nat)
    requires l.Valid() && b < l.batch && f < l.oc && ky < l.kh && kx < l.kw
    requires l.Inside(iy, ix)
    ensures 0 <= ((b * l.ih + iy) * l.iw + ix) * l.ic
    ensures ((b * l.ih + iy) * l.iw + ix) * l.ic + l.ic <= |l.x|
    ensures 0 <= ((f * l.kh + ky) * l.kw + kx) * l.ic
    ensures ((f * l.kh + ky) * l.kw + kx) * l.ic + l.ic <= |l.w|
  {
    RadixBound(b, l.batch, iy, l.ih);
    RadixBound(b * l.ih + iy, l.batch * l.ih, ix, l.iw);
    RunBound((b * l.ih + iy) * l.iw + ix, l.batch * l.ih * l.iw, l.ic);
    RadixBound(f, l.oc, ky, l.kh);
    RadixBound(f * l.kh + ky, l.oc * l.kh, kx, l.kw);
    RunBound((f * l.kh + ky) * l.kw + kx, l.oc * l.kh * l.kw, l.ic);
  }

  lemma RunBound(q: nat, m: nat, n: nat)
    requires q < m
    ensures 0 <= q * n && q * n + n <= m * n
  {
    MulNonneg(q, n);
    MulMono(q + 1, m, n);
    MulDist(q, 1, n);
  }

  /** Inside the image the tap is the inner product of two channel runs. */
  lemma {:induction false} TapIsDot(l: Layer, b: nat, iy: nat, ix: nat, f: nat, ky: nat, kx: nat, n: nat,
                                    xs: seq<real>, ws: seq<real>)
    requires l.Inside(iy, ix) && n <= |xs| && n <= |ws|
    requires forall i :: 0 <= i < |xs| ==> xs[i] == Value(l.x, ((b * l.ih + iy) * l.iw + ix) * l.ic + i)
    requires forall i :: 0 <= i < |ws| ==> ws[i] == Value(l.w, ((f * l.kh + ky) * l.kw + kx) * l.ic + i)
    ensures l.TapSum(b, iy, ix, f, ky, kx, n) == DotSum(xs, ws, n)
  {
    if n > 0 {
      TapIsDot(l, b, iy, ix, f, ky, kx, n - 1, xs, ws);
    }
  }

  /** lo..hi are the taps of a filter row that fall inside the image when it starts at column x0. */
  ghost predicate Clipped(l: Layer, x0: int, lo: nat, hi: int) {
    lo == (if 0 > -x0 then 0 else -x0) && hi == (if l.kw < l.iw - x0 then l.kw else l.iw - x0)
  }

  /** ws and xs are the parts of filter row ky and image row iy that lie over each other. */
  ghost predicate RunOf(l: Layer, b: nat, iy: nat, f: nat, ky: nat, x0: int, lo: nat, hi: int, ws: seq<real>,
      xs: seq<real>) {
    && |xs| == |ws| == hi - lo
    && (forall i :: 0 <= i < |xs| ==> xs[i] == Value(l.x, (b * l.ih + iy) * l.iw + x0 + lo + i))
    && (forall i :: 0 <= i < |ws| ==> ws[i] == Value(l.w, (f * l.kh + ky) * l.kw + lo + i))
  }

  function TapOf(l: Layer, b: nat, iy: nat, f: nat, ky: nat, x0: int, k: nat): real {
    l.TapSum(b, iy, x0 + k, f, ky, k, l.ic)
  }

  lemma TapInRun(l: Layer, b: nat, iy: nat, f: nat, ky: nat, k: nat, x0: int, lo: nat, hi: int, ws: seq<real>,
      xs: seq<real>)
    requires l.ic == 1 && iy < l.ih && Clipped(l, x0, lo, hi) && lo <= k < hi
    requires RunOf(l, b, iy, f, ky, x0, lo, hi, ws, xs)
    ensures TapOf(l, b, iy, f, ky, x0, k) == ws[k - lo] * xs[k - lo]
  {
    assert xs[k - lo] == Value(l.x, (b * l.ih + iy) * l.iw + x0 + k);
    assert ws[k - lo] == Value(l.w, (f * l.kh + ky) * l.kw + k);
    assert l.TapSum(b, iy, x0 + k, f, ky, k, 0) == 0.0;
    assert l.TapSum(b, iy, x0 + k, f, ky, k, 1) == l.Pixel(b, iy, x0 + k, 0) * l.Weight(f, ky, k, 0);
  }

  lemma {:induction false} RowIsTaps(l: Layer, b: nat, iy: nat, ox: nat, f: nat, ky: nat, n: nat, x0: int,
      taps: seq<real>)
    requires l.dilationW == 1 && x0 == ox * l.strideW - l.padW && n <= |taps|
    requires forall k :: 0 <= k < |taps| ==> taps[k] == TapOf(l, b, iy, f, ky, x0, k)
    ensures l.RowSum(b, iy, ox, f, ky, n) == Sum(taps, n)
  {
    if n > 0 {
      RowIsTaps(l, b, iy, ox, f, ky, n - 1, x0, taps);
      assert TapAt(ox, n - 1, l.strideW, 1, l.padW) == x0 + (n - 1);
      assert taps[n - 1] == TapOf(l, b, iy, f, ky, x0, n - 1);
    }
  }

  function Sum(s: seq<real>, n: nat): real
    requires n <= |s|
  {
    if n == 0 then 0.0 else Sum(s, n - 1) + s[n - 1]
  }

  /** A sum whose terms vanish outside lo..hi and are products inside is an inner product. */
  lemma {:induction false} SumIsRun(taps: seq<real>, lo: nat, hi: nat, ws: seq<real>, xs: seq<real>, n: nat)
    requires lo < hi <= |taps| && |ws| == |xs| == hi - lo && n <= |taps|
    requires forall k :: 0 <= k < |taps| ==> taps[k] == if lo <= k < hi then ws[k - lo] * xs[k - lo] else 0.0
    ensures Sum(taps, n) == DotSum(ws, xs, if n <= lo then 0 else if n <= hi then n - lo else hi - lo)
  {
    if n > 0 {
      SumIsRun(taps, lo, hi, ws, xs, n - 1);
    }
  }

  /** With one channel and no width dilation, the taps inside the image are one contiguous run. */
  lemma RowIsClippedDot(l: Layer, b: nat, iy: nat, ox: nat, f: nat, ky: nat,
                        x0: int, lo: nat, hi: int, ws: seq<real>, xs: seq<real>)
    requires l.ic == 1 && l.dilationW == 1 && iy < l.ih
    requires x0 == ox * l.strideW - l.padW && Clipped(l, x0, lo, hi) && lo < hi
    requires RunOf(l, b, iy, f, ky, x0, lo, hi, ws, xs)
    ensures l.RowSum(b, iy, ox, f, ky, l.kw) == DotSum(ws, xs, hi - lo)
  {
    var taps := seq(l.kw, k requires 0 <= k < l.kw => TapOf(l, b, iy, f, ky, x0, k));
    RowIsTaps(l, b, iy, ox, f, ky, l.kw, x0, taps);
    forall k | 0 <= k < l.kw ensures taps[k] == if lo <= k < hi then ws[k - lo] * xs[k - lo] else 0.0 {
      if lo <= k < hi {
        TapInRun(l, b, iy, f, ky, k, x0, lo, hi, ws, xs);
      } else {
        TapOutside(l, b, iy, x0 + k, f, ky, k, 1);
      }
    }
    SumIsRun(taps, lo, hi, ws, xs, l.kw);
  }

  lemma {:induction false} EmptyClip(l: Layer, b: nat, iy: nat, ox: nat, f: nat, ky: nat, n: nat, x0: int, lo: nat,
      hi: int)
    requires n <= l.kw && l.dilationW == 1
    requires x0 == ox * l.strideW - l.padW && Clipped(l, x0, lo, hi) && hi <= lo
    ensures l.RowSum(b, iy, ox, f, ky, n) == 0.0
  {
    if n > 0 {
      EmptyClip(l, b, iy, ox, f, ky, n - 1, x0, lo, hi);
      TapOutside(l, b, iy, TapAt(ox, n - 1, l.strideW, 1, l.padW), f, ky, n - 1, l.ic);
    }
  }

  lemma ClippedRun(l: Layer, b: nat, iy: nat, f: nat, ky: nat, x0: int, lo: nat, hi: int)
    requires l.Valid() && b < l.batch && f < l.oc && ky < l.kh && iy < l.ih && l.ic == 1
    requires lo < hi <= l.kw && 0 <= x0 + lo && x0 + hi <= l.iw
    ensures 0 <= (b * l.ih + iy) * l.iw + x0 + lo && (b * l.ih + iy) * l.iw + x0 + hi <= |l.x|
    ensures 0 <= (f * l.kh + ky) * l.kw + lo && (f * l.kh + ky) * l.kw + hi <= |l.w|
  {
    PixelInside(l, b, iy, x0 + lo, 0);
    PixelInside(l, b, iy, x0 + hi - 1, 0);
    WeightInside(l, f, ky, lo, 0);
    WeightInside(l, f, ky, hi - 1, 0);
  }

  /** Every branch of the kernel computes the same zero-padded sum. */
  method ConvDot(l: Layer, b: nat, oy: nat, ox: nat, f: nat) returns (acc: real)
    requires l.Valid() && b < l.batch && f < l.oc
    ensures acc == l.At(b, oy, ox, f)
  {
    acc := if l.bias.Some? then l.bias.value[f] else 0.0;
    ghost var start := acc;
    for ky := 0 to l.kh
      invariant acc == start + l.KernelSum(b, oy, ox, f, ky)
    {
      var iy := oy * l.strideH - l.padH + ky * l.dilationH;
      if iy < 0 || iy >= l.ih {
        RowOutside(l, b, iy, ox, f, ky, l.kw);
      } else if l.ic == 1 && l.dilationW == 1 {
        acc := AddClippedRow(l, b, iy, ox, f, ky, acc);
      } else {
        acc := AddRow(l, b, iy, ox, f, ky, acc);
      }
    }
  }

  /** The one-channel path: the part of the filter row over the image, as one inner product. */
  method AddClippedRow(l: Layer, b: nat, iy: nat, ox: nat, f: nat, ky: nat, start: real) returns (acc: real)
    requires l.Valid() && b < l.batch && f < l.oc && ky < l.kh && iy < l.ih
    requires l.ic == 1 && l.dilationW == 1
    ensures acc == start + l.RowSum(b, iy, ox, f, ky, l.kw)
  {
    acc := start;
    var x0 := ox * l.strideW - l.padW;
    var lo := if 0 > -x0 then 0 else -x0;
    var hi := if l.kw < l.iw - x0 then l.kw else l.iw - x0;
    if hi > lo {
      var xo := (b * l.ih + iy) * l.iw + x0 + lo;
      var wo := (f * l.kh + ky) * l.kw + lo;
      ClippedRun(l, b, iy, f, ky, x0, lo, hi);
      var ws, xs := l.w[wo..wo + hi - lo], l.x[xo..xo + hi - lo];
      RowIsClippedDot(l, b, iy, ox, f, ky, x0, lo, hi, ws, xs);
      var d := Dot(ws, xs);
      acc := acc + d;
    } else {
      EmptyClip(l, b, iy, ox, f, ky, l.kw, x0, lo, hi);
    }
  }

  /** The general path over one filter row. */
  method AddRow(l: Layer, b: nat, iy: nat, ox: nat, f: nat, ky: nat, start: real) returns (acc: real)
    requires l.Valid() && b < l.batch && f < l.oc && ky < l.kh && iy < l.ih
    ensures acc == start + l.RowSum(b, iy, ox, f, ky, l.kw)
  {
    acc := start;
    for kx := 0 to l.kw
      invariant acc == start + l.RowSum(b, iy, ox, f, ky, kx)
    {
      var ix := ox * l.strideW - l.padW + kx * l.dilationW;
      if ix < 0 || ix >= l.iw {
        TapOutside(l, b, iy, ix, f, ky, kx, l.ic);
      } else {
        RunInside(l, b, iy, ix, f, ky, kx);
        var xo := ((b * l.ih + iy) * l.iw + ix) * l.ic;
        var wo := ((f * l.kh + ky) * l.kw + kx) * l.ic;
        var xs, ws := l.x[xo..xo + l.ic], l.w[wo..wo + l.ic];
        TapIsDot(l, b, iy, ix, f, ky, kx, l.ic, xs, ws);
        var d := Dot(xs, ws);
        acc := acc + d;
      }
    }
  }

  // ---------------------------------------------------------------- the whole kernel

  /** Every output value as a function of its position. */
  function Values(l: Layer): (nat, nat, nat, nat) -> real {
    (b: nat, oy: nat, ox: nat, f: nat) => l.activate(l.At(b, oy, ox, f))
  }

  /** The output buffer: every output value at its row-major position. */
  function Output(l: Layer): (y: seq<real>)
    requires l.Valid()
  {
    Image(l.batch, l.OutH(), l.OutW(), l.oc, Values(l))
  }

  /** The kernel works out the padding itself. */
  method Conv2D(g: Layer) returns (y: array<real>)
    requires g.Valid()
    ensures fresh(y) && y[..] == Output(g.WithPadding())
  {
    var oh, ow := g.OutH(), g.OutW();
    var padH, padW := 0, 0;
    if g.samePad {
      padH := PadFor(g.strideH, g.dilationH, g.ih, g.kh, oh);
      padW := PadFor(g.strideW, g.dilationW, g.iw, g.kw, ow);
    }
    var l := g.(padH := padH, padW := padW);
    assert l == g.WithPadding();
    y := Convolve(l, oh, ow);
  }

  method Convolve(l: Layer, oh: nat, ow: nat) returns (y: array<real>)
    requires l.Valid() && oh == l.OutH() && ow == l.OutW()
    ensures fresh(y) && y[..] == Output(l)
  {
    ghost var at := Values(l);
    y := new real[Count(l.batch, oh, ow, l.oc)];
    var yi := 0;
    for b := 0 to l.batch
      invariant yi == b * oh * ow * l.oc
      invariant Filled(y, yi, oh, ow, l.oc, at)
    {
      for oy := 0 to oh
        invariant yi == (b * oh + oy) * ow * l.oc
        invariant Filled(y, yi, oh, ow, l.oc, at)
      {
        for ox := 0 to ow
          invariant yi == ((b * oh + oy) * ow + ox) * l.oc
          invariant Filled(y, yi, oh, ow, l.oc, at)
        {
          for f := 0 to l.oc
            invariant yi == ((b * oh + oy) * ow + ox) * l.oc + f
            invariant Filled(y, yi, oh, ow, l.oc, at)
          {
            var acc := ConvDot(l, b, oy, ox, f);
            PositionInRange(l.batch, oh, ow, l.oc, b, oy, ox, f);
            CellAt(oh, ow, l.oc, at, b, oy, ox, f, yi);
            y[yi] := l.activate(acc);
            yi := yi + 1;
          }
          MulDist((b * oh + oy) * ow + ox, 1, l.oc);
        }
        RowDone(b * oh + oy, ow, l.oc);
      }
      ImageDone(b, oh, ow, l.oc);
    }
  }
}

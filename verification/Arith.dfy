/** The few facts of non-linear integer arithmetic the index proofs rest on. */
module Arith {

  lemma MulMono(a: int, b: int, d: int)
    requires a <= b && 0 <= d
    ensures a * d <= b * d
  {
  }

  lemma MulDist(a: int, b: int, d: int)
    ensures (a + b) * d == a * d + b * d
    ensures (a - b) * d == a * d - b * d
  {
  }

  lemma MulNonneg(a: int, b: int)
    requires 0 <= a && 0 <= b
    ensures 0 <= a * b
  {
  }

  lemma MulAssoc(a: int, b: int, c: int)
    ensures a * (b * c) == (a * b) * c
  {
  }

  lemma MulSwap(a: int, b: int, c: int)
    ensures a * (b * c) == (a * c) * b
  {
    MulAssoc(a, c, b);
  }

  lemma ProductPositive(a: nat, b: nat)
    requires a * b > 0
    ensures a > 0 && b > 0
  {
  }

  lemma NoMultipleBetween(k: int, d: int)
    requires d > 0 && -d < k * d < d
    ensures k == 0
  {
    if k >= 1 {
      MulMono(1, k, d);
    } else if k <= -1 {
      MulMono(k, -1, d);
    }
  }

  lemma QuotientNonneg(n: nat, d: nat)
    requires d > 0
    ensures 0 <= n / d && 0 <= n % d < d
  {
  }

  /** Quotient and remainder are unique. */
  lemma DivUnique(n: int, d: int, q: int, r: int)
    requires d > 0 && 0 <= r < d && n == q * d + r
    ensures n / d == q && n % d == r
  {
    var q', r' := n / d, n % d;
    assert n == d * q' + r';
    assert d * q' == q' * d;
    MulDist(q, q', d);
    NoMultipleBetween(q - q', d);
  }

  lemma DivStep(n: int, d: int)
    requires d > 0
    ensures n / d == (n - d) / d + 1
    ensures n % d == (n - d) % d
  {
    var q, r := n / d, n % d;
    assert n == d * q + r;
    assert d * q == q * d;
    MulDist(q, 1, d);
    DivUnique(n - d, d, q - 1, r);
  }

  /** Appending a digit r of radix n to an index q below m stays below m * n. */
  lemma RadixBound(q: nat, m: nat, r: nat, n: nat)
    requires q < m && r < n
    ensures 0 <= q * n + r < m * n
  {
    MulNonneg(q, n);
    MulMono(q + 1, m, n);
    MulDist(q, 1, n);
  }

  lemma RadixSplit(q: int, r: int, n: int)
    requires 0 <= r < n
    ensures (q * n + r) / n == q && (q * n + r) % n == r
  {
    DivUnique(q * n + r, n, q, r);
  }

  lemma CellIndex(oy: nat, ow: nat, oc: nat, ox: nat, f: nat)
    ensures (oy * ow + ox) * oc + f == oy * (ow * oc) + (ox * oc + f)
  {
    MulAssoc(oy, ow, oc);
    MulDist(oy * ow, ox, oc);
  }

  lemma ColumnInRange(j: nat, ow: nat, oc: nat)
    requires oc > 0 && j < ow * oc
    ensures j == (j / oc) * oc + j % oc && 0 <= j / oc < ow
  {
    var q := j / oc;
    assert j == oc * q + j % oc;
    if q >= ow {
      MulMono(ow, q, oc);
    }
  }

  lemma CellPosition(i: nat, rows: nat, width: nat)
    requires width > 0 && i < rows * width
    ensures 0 <= i / width < rows && 0 <= i % width < width && i == (i / width) * width + i % width
  {
    ColumnInRange(i, rows, width);
  }

  /** A position among k rows of a row-major image, and the same one r0 rows further down. */
  lemma RowsDown(r0: nat, k: nat, iy: nat, w: nat, ix: nat, c: nat, ch: nat, at: int, down: int)
    requires iy < k && ix < w && ch < c
    requires at == (iy * w + ix) * c + ch && down == ((r0 + iy) * w + ix) * c + ch
    ensures 0 <= at < k * (w * c) && down == r0 * (w * c) + at
  {
    RadixBound(iy, k, ix, w);
    RadixBound(iy * w + ix, k * w, ch, c);
    MulAssoc(k, w, c);
    MulAssoc(r0, w, c);
    MulDist(r0, iy, w);
    MulDist(r0 * w, iy * w + ix, c);
  }
}

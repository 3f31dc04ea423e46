/** The four-lane inner product, over exact arithmetic. */
module Vec {

  /** Sum of a[i] * b[i] for i < n. */
  function DotSum(a: seq<real>, b: seq<real>, n: nat): real
    requires n <= |a| && n <= |b|
  {
    if n == 0 then 0.0 else DotSum(a, b, n - 1) + a[n - 1] * b[n - 1]
  }

  /** The lanes group the additions differently; over the reals they add up to the plain sum. */
  method Dot(a: seq<real>, b: seq<real>) returns (s: real)
    requires |a| <= |b|
    ensures s == DotSum(a, b, |a|)
  {
    var s0, s1, s2, s3 := 0.0, 0.0, 0.0, 0.0;
    var i := 0;
    while i + 4 <= |a|
      invariant 0 <= i <= |a|
      invariant s0 + s1 + s2 + s3 == DotSum(a, b, i)
    {
      FourMore(a, b, i);
      s0 := s0 + a[i] * b[i];
      s1 := s1 + a[i + 1] * b[i + 1];
      s2 := s2 + a[i + 2] * b[i + 2];
      s3 := s3 + a[i + 3] * b[i + 3];
      i := i + 4;
    }
    s := s0 + s1 + s2 + s3;
    while i < |a|
      invariant 0 <= i <= |a|
      invariant s == DotSum(a, b, i)
    {
      s := s + a[i] * b[i];
      i := i + 1;
    }
  }

  lemma FourMore(a: seq<real>, b: seq<real>, i: nat)
    requires i + 4 <= |a| && i + 4 <= |b|
    ensures DotSum(a, b, i + 4) ==
      DotSum(a, b, i) + a[i] * b[i] + a[i + 1] * b[i + 1] + a[i + 2] * b[i + 2] + a[i + 3] * b[i + 3]
  {
    assert DotSum(a, b, i + 2) == DotSum(a, b, i) + a[i] * b[i] + a[i + 1] * b[i + 1];
    assert DotSum(a, b, i + 4) == DotSum(a, b, i + 2) + a[i + 2] * b[i + 2] + a[i + 3] * b[i + 3];
  }

  /** dst[i] becomes dst[i] + gain * x[i] for every i below the length of x. */
  method Axpy(dst: array<real>, gain: real, x: seq<real>)
    requires |x| <= dst.Length
    modifies dst
    ensures forall i :: 0 <= i < |x| ==> dst[i] == old(dst[i]) + gain * x[i]
    ensures forall i :: |x| <= i < dst.Length ==> dst[i] == old(dst[i])
  {
    for i := 0 to |x|
      invariant forall k :: 0 <= k < i ==> dst[k] == old(dst[k]) + gain * x[k]
      invariant forall k :: i <= k < dst.Length ==> dst[k] == old(dst[k])
    {
      dst[i] := dst[i] + gain * x[i];
    }
  }
}

/** WAV files: the streaming writer, the chunk reader, and how they undo each other. */
module Wav {
  import opened Wrappers
  import opened Pcm
  import opened Arith

  const MAX_U16: int := 0xffff
  const MAX_U32: int := 0xffff_ffff
  const MAX_DATA: int := 256 * 1024 * 1024
  const MAX_FORMAT: int := 64 * 1024

  const RIFF: seq<Byte> := [0x52, 0x49, 0x46, 0x46]
  const WAVE: seq<Byte> := [0x57, 0x41, 0x56, 0x45]
  const FMT: seq<Byte> := [0x66, 0x6d, 0x74, 0x20]
  const DATA: seq<Byte> := [0x64, 0x61, 0x74, 0x61]

  // ---------------------------------------------------------------- little-endian numbers

  /** The k lowest base-256 digits, lowest first. */
  function Le(n: nat, k: nat): (b: seq<Byte>)
    ensures |b| == k
    decreases k
  {
    if k == 0 then [] else [n % 0x100] + Le(n / 0x100, k - 1)
  }

  function Un(b: seq<Byte>): nat
    decreases |b|
  {
    if b == [] then 0 else (b[0] as int) + 0x100 * Un(b[1..])
  }

  function Power(k: nat): (p: nat)
    ensures p > 0
  {
    if k == 0 then 1 else 0x100 * Power(k - 1)
  }

  lemma {:induction false} UnLe(n: nat, k: nat)
    ensures Un(Le(n, k)) == n % Power(k)
    decreases k
  {
    if k > 0 {
      UnLe(n / 0x100, k - 1);
      TwoDigits(n, 0x100, Power(k - 1));
      assert Le(n, k)[1..] == Le(n / 0x100, k - 1);
    }
  }

  lemma {:induction false} UnBound(b: seq<Byte>)
    ensures Un(b) < Power(|b|)
    decreases |b|
  {
    if b != [] {
      UnBound(b[1..]);
    }
  }

  lemma Powers()
    ensures Power(2) == 0x1_0000 && Power(4) == 0x1_0000_0000
  {
    assert Power(1) == 0x100 && Power(2) == 0x1_0000 && Power(3) == 0x100_0000;
  }

  function Le2(n: nat): (b: seq<Byte>)
    ensures |b| == 2
  {
    Le(n, 2)
  }

  function Le4(n: nat): (b: seq<Byte>)
    ensures |b| == 4
  {
    Le(n, 4)
  }

  function Un2(b: seq<Byte>): (n: nat)
    requires |b| == 2
    ensures n <= MAX_U16
  {
    UnBound(b);
    Powers();
    Un(b)
  }

  function Un4(b: seq<Byte>): (n: nat)
    requires |b| == 4
    ensures n <= MAX_U32
  {
    UnBound(b);
    Powers();
    Un(b)
  }

  /** Taking off the low digit and then the next is taking off both. */
  lemma TwoDigits(n: nat, a: nat, b: nat)
    requires a > 0 && b > 0
    ensures n % (a * b) == n % a + a * (n / a % b)
  {
    var q, r := n / a, n % a;
    var h, d := q / b, q % b;
    assert n == a * q + r && q == b * h + d;
    assert a * q == q * a && b * h == h * b && a * d == d * a;
    MulDist(h * b, d, a);
    MulAssoc(h, b, a);
    assert b * a == a * b;
    RadixBound(d, b, r, a);
    DivUnique(n, a * b, h, d * a + r);
  }

  lemma Un2Le2(n: nat)
    ensures Un2(Le2(n)) == n % 0x1_0000
  {
    UnLe(n, 2);
    Powers();
  }

  lemma Un4Le4(n: nat)
    ensures Un4(Le4(n)) == n % 0x1_0000_0000
  {
    UnLe(n, 4);
    Powers();
  }

  // ---------------------------------------------------------------- formats

  datatype Layout = S16LE | S24_3LE
  datatype Format = Format(rate: int, channels: int, layout: Layout)

  predicate Valid(f: Format) {
    f.rate > 0 && f.channels > 0
  }

  /** What the writer accepts; the byte rate is computed in unsigned 64 bits. */
  predicate Writable(f: Format) {
    && Valid(f) && f.layout.S16LE? && f.channels <= MAX_U16 / 2
    && (f.rate * f.channels * 2) % 0x1_0000_0000_0000_0000 <= MAX_U32
  }

  function FormatPayload(f: Format): (b: seq<Byte>)
    requires f.rate >= 0 && f.channels >= 0
    ensures |b| == 16
  {
    ByteRateNonneg(f.rate, f.channels);
    Le2(1) + Le2(f.channels) + Le4(f.rate) + Le4(f.rate * f.channels * 2) + Le2(f.channels * 2) + Le2(16)
  }

  lemma ByteRateNonneg(rate: nat, channels: nat)
    ensures rate * channels * 2 >= 0
  {
  }

  /** The numbers of a format chunk. */
  datatype Fields = Fields(tag: nat, channels: nat, rate: nat, byteRate: nat, align: nat, bits: nat)

  function FieldsOf(p: seq<Byte>): Fields
    requires |p| >= 16
  {
    Fields(Un2(p[0..2]), Un2(p[2..4]), Un4(p[4..8]), Un4(p[8..12]), Un2(p[12..14]), Un2(p[14..16]))
  }

  function ParseFormat(p: seq<Byte>): Option<Format> {
    if |p| < 16 then None else FormatOf(FieldsOf(p))
  }

  function FormatOf(x: Fields): Option<Format> {
    var f := Format(x.rate, x.channels, S16LE);
    if x.tag != 1 || x.bits != 16 || !Valid(f) || x.align != x.channels * 2
      || x.byteRate != x.rate * (x.channels * 2) then None
    else Some(f)
  }

  lemma PayloadParts(a: seq<Byte>, b: seq<Byte>, c: seq<Byte>, d: seq<Byte>, e: seq<Byte>, g: seq<Byte>)
    requires |a| == |b| == |e| == |g| == 2 && |c| == |d| == 4
    ensures var p := a + b + c + d + e + g;
            FieldsOf(p) == Fields(Un2(a), Un2(b), Un4(c), Un4(d), Un2(e), Un2(g))
  {
    var p := a + b + c + d + e + g;
    assert p[0..2] == a && p[2..4] == b && p[4..8] == c;
    assert p[8..12] == d && p[12..14] == e && p[14..16] == g;
  }

  lemma PayloadFields(f: Format, byteRate: nat)
    requires f.rate >= 0 && f.channels >= 0 && byteRate == f.rate * f.channels * 2
    ensures FieldsOf(FormatPayload(f))
         == Fields(1, f.channels % 0x1_0000, f.rate % 0x1_0000_0000, byteRate % 0x1_0000_0000,
             f.channels * 2 % 0x1_0000, 16)
  {
    PayloadParts(Le2(1), Le2(f.channels), Le4(f.rate), Le4(byteRate), Le2(f.channels * 2), Le2(16));
    Un2Le2(1);
    Un2Le2(16);
    Un2Le2(f.channels);
    Un2Le2(f.channels * 2);
    Un4Le4(f.rate);
    Un4Le4(byteRate);
  }

  /** A format chunk reads back as the format it was written from exactly when its byte rate fits 32 bits. */
  lemma FormatRoundTrip(f: Format, byteRate: nat)
    requires Valid(f) && f.layout.S16LE? && f.channels <= MAX_U16 / 2 && byteRate == f.rate * f.channels * 2
    ensures ParseFormat(FormatPayload(f)) == Some(f) <==> byteRate <= MAX_U32
  {
    ByteRateBounds(f.rate, f.channels, byteRate);
    PayloadFields(f, byteRate);
    FieldsRoundTrip(f, byteRate, f.rate * (f.channels * 2));
  }

  lemma FieldsRoundTrip(f: Format, byteRate: nat, product: nat)
    requires Valid(f) && f.layout.S16LE? && f.channels <= MAX_U16 / 2
    requires product == f.rate * (f.channels * 2) && byteRate == product && f.rate <= byteRate
    ensures FormatOf(Fields(1, f.channels % 0x1_0000, f.rate % 0x1_0000_0000, byteRate % 0x1_0000_0000,
      f.channels * 2 % 0x1_0000, 16)) == Some(f)
       <==> byteRate <= MAX_U32
  {
    var x := Fields(1, f.channels, f.rate % 0x1_0000_0000, byteRate % 0x1_0000_0000, f.channels * 2, 16);
    if byteRate <= MAX_U32 {
      assert x.rate == f.rate && x.byteRate == byteRate;
    }
  }

  lemma ByteRateBounds(rate: nat, channels: nat, byteRate: int)
    requires channels > 0 && byteRate == rate * channels * 2
    ensures byteRate == rate * (channels * 2) && rate <= byteRate
  {
    assert rate <= rate * channels;
  }

  // ---------------------------------------------------------------- what is accepted

  lemma {:induction false} LeUn(b: seq<Byte>)
    ensures Le(Un(b), |b|) == b
    decreases |b|
  {
    if b != [] {
      LeUn(b[1..]);
      var n := Un(b);
      assert n % 0x100 == b[0] as int && n / 0x100 == Un(b[1..]);
    }
  }

  lemma Le2Un2(b: seq<Byte>)
    requires |b| == 2
    ensures Le2(Un2(b)) == b
  {
    LeUn(b);
  }

  lemma Le4Un4(b: seq<Byte>)
    requires |b| == 4
    ensures Le4(Un4(b)) == b
  {
    LeUn(b);
  }

  lemma PayloadOf(p: seq<Byte>)
    requires |p| >= 16
    ensures var x := FieldsOf(p);
            p[..16] == Le2(x.tag) + Le2(x.channels) + Le4(x.rate) + Le4(x.byteRate) + Le2(x.align) + Le2(x.bits)
  {
    SixParts(p);
    Le2Un2(p[0..2]);
    Le2Un2(p[2..4]);
    Le4Un4(p[4..8]);
    Le4Un4(p[8..12]);
    Le2Un2(p[12..14]);
    Le2Un2(p[14..16]);
  }

  lemma SixParts(p: seq<Byte>)
    requires |p| >= 16
    ensures p[..16] == p[0..2] + p[2..4] + p[4..8] + p[8..12] + p[12..14] + p[14..16]
  {
  }

  /** The first sixteen bytes alone decide. */
  lemma FormatPrefix(p: seq<Byte>)
    requires |p| >= 16
    ensures ParseFormat(p) == ParseFormat(p[..16])
  {
    var q := p[..16];
    assert q[0..2] == p[0..2] && q[2..4] == p[2..4] && q[4..8] == p[4..8];
    assert q[8..12] == p[8..12] && q[12..14] == p[12..14] && q[14..16] == p[14..16];
  }

  /** A format whose channels and byte rate fit their fields. */
  predicate Representable(f: Format, byteRate: int) {
    Valid(f) && f.layout.S16LE? && f.channels <= MAX_U16 / 2 && byteRate <= MAX_U32
  }

  /** A format chunk is accepted exactly when it begins with the sixteen bytes written for the format it is read as. */
  lemma FormatAcceptedIff(p: seq<Byte>, f: Format, byteRate: int)
    requires byteRate == f.rate * f.channels * 2
    ensures ParseFormat(p) == Some(f) <==> |p| >= 16 && Representable(f, byteRate) && p[..16] == FormatPayload(f)
  {
    if |p| >= 16 && ParseFormat(p) == Some(f) {
      AcceptedIsWritten(p, f, byteRate);
    } else if |p| >= 16 && Representable(f, byteRate) && p[..16] == FormatPayload(f) {
      WrittenIsAccepted(p, f, byteRate);
    }
  }

  lemma WrittenIsAccepted(p: seq<Byte>, f: Format, byteRate: int)
    requires |p| >= 16 && byteRate == f.rate * f.channels * 2 && Representable(f, byteRate)
    requires p[..16] == FormatPayload(f)
    ensures ParseFormat(p) == Some(f)
  {
    ByteRateNonneg(f.rate, f.channels);
    FormatRoundTrip(f, byteRate);
    FormatPrefix(p);
  }

  lemma AcceptedIsWritten(p: seq<Byte>, f: Format, byteRate: int)
    requires |p| >= 16 && ParseFormat(p) == Some(f) && byteRate == f.rate * f.channels * 2
    ensures Representable(f, byteRate) && p[..16] == FormatPayload(f)
  {
    PayloadOf(p);
    ByteRateBounds(f.rate, f.channels, byteRate);
  }
}

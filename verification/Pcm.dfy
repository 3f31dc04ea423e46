/** Signed 16-bit samples and their little-endian bytes. */
module Pcm {
  type Sample = x: int | -0x8000 <= x < 0x8000
  type Byte = x: int | 0 <= x < 0x100

  function Word(s: Sample): (w: nat)
    ensures w < 0x1_0000
  {
    if s < 0 then s + 0x1_0000 else s
  }

  function SampleOf(lo: Byte, hi: Byte): Sample {
    var w := lo + 0x100 * hi;
    if w >= 0x8000 then w - 0x1_0000 else w
  }

  function Pair(s: Sample): (b: seq<Byte>)
    ensures |b| == 2
  {
    [Word(s) % 0x100, Word(s) / 0x100]
  }

  lemma PairBack(s: Sample)
    ensures SampleOf(Pair(s)[0], Pair(s)[1]) == s
  {
  }

  function Encode(samples: seq<Sample>): (b: seq<Byte>)
    ensures |b| == 2 * |samples|
  {
    if samples == [] then [] else Encode(samples[..|samples| - 1]) + Pair(samples[|samples| - 1])
  }

  function Decode(bytes: seq<Byte>): (s: seq<Sample>)
    ensures |s| == |bytes| / 2
  {
    seq(|bytes| / 2, i requires 0 <= i < |bytes| / 2 => SampleOf(bytes[2 * i], bytes[2 * i + 1]))
  }

  lemma DecodeAppend(a: seq<Byte>, b: seq<Byte>)
    requires |a| % 2 == 0
    ensures Decode(a + b) == Decode(a) + Decode(b)
  {
    forall i | 0 <= i < |b| / 2 ensures Decode(a + b)[|a| / 2 + i] == Decode(b)[i] {
      assert 2 * (|a| / 2 + i) == |a| + 2 * i;
    }
  }

  /** Decoding undoes encoding. */
  lemma {:induction false} DecodeEncode(samples: seq<Sample>)
    ensures Decode(Encode(samples)) == samples
  {
    if samples != [] {
      var last := samples[|samples| - 1];
      DecodeEncode(samples[..|samples| - 1]);
      PairBack(last);
      DecodeAppend(Encode(samples[..|samples| - 1]), Pair(last));
      assert Decode(Pair(last)) == [last];
    }
  }

  /** Encoding undoes decoding when no byte is left over. */
  lemma {:induction false} EncodeDecode(bytes: seq<Byte>)
    requires |bytes| % 2 == 0
    ensures Encode(Decode(bytes)) == bytes
  {
    if bytes != [] {
      var n := |bytes| - 2;
      var front, lo, hi := bytes[..n], bytes[n], bytes[n + 1];
      EncodeDecode(front);
      DecodeAppend(front, [lo, hi]);
      assert bytes == front + [lo, hi];
      assert Decode([lo, hi]) == [SampleOf(lo, hi)];
      assert Pair(SampleOf(lo, hi)) == [lo, hi];
      assert Decode(bytes)[..|Decode(bytes)| - 1] == Decode(front);
    }
  }

  method EncodePCM(samples: seq<Sample>) returns (data: array<Byte>)
    ensures fresh(data) && data[..] == Encode(samples)
  {
    data := new Byte[|samples| * 2](_ => 0);
    for i := 0 to |samples|
      invariant data[..2 * i] == Encode(samples[..i])
    {
      data[2 * i] := Word(samples[i]) % 0x100;
      data[2 * i + 1] := Word(samples[i]) / 0x100;
      assert samples[..i + 1][..i] == samples[..i];
      assert data[..2 * (i + 1)] == data[..2 * i] + Pair(samples[i]);
    }
    assert samples[..|samples|] == samples;
  }
}

/** The streaming WAV writer over a seekable file. */
module WavWriter {
  import opened Pcm
  import opened Wav
  import opened WavFile

  /** b written over data from a position on. */
  function Overlay(data: seq<Byte>, pos: nat, b: seq<Byte>): seq<Byte>
    requires pos <= |data|
  {
    data[..pos] + b + (if pos + |b| < |data| then data[pos + |b|..] else [])
  }

  /** An open file; any call can fail, and a write can stop early. faults counts the calls that did. */
  class File {
    var data: seq<Byte>
    var pos: nat
    ghost var faults: nat

    constructor ()
      ensures data == [] && pos == 0 && faults == 0
    {
      data, pos, faults := [], 0, 0;
    }

    method Write(b: seq<Byte>) returns (n: nat, ok: bool)
      requires pos <= |data|
      modifies this
      ensures n <= |b| && data == Overlay(old(data), old(pos), b[..n]) && pos == old(pos) + n <= |data|
      ensures faults == old(faults) + if ok && n == |b| then 0 else 1
    {
      ok := *;
      n := |b|;
      var whole: bool := *;
      if !whole {
        var m: int := *;
        n := if 0 <= m < |b| then m else |b|;
      }
      data := Overlay(data, pos, b[..n]);
      pos := pos + n;
      faults := faults + if ok && n == |b| then 0 else 1;
    }

    method Seek(to: nat) returns (ok: bool)
      requires to <= |data|
      modifies this`pos, this`faults
      ensures ok ==> pos == to
      ensures !ok ==> pos == old(pos)
      ensures faults == old(faults) + if ok then 0 else 1
    {
      ok := *;
      faults := faults + if ok then 0 else 1;
      if ok {
        pos := to;
      }
    }
  }

  class WAVWriter {
    const file: File
    const format: Format
    var dataBytes: nat
    var closed: bool
    var failed: bool
    ghost var samples: seq<Sample>

    /** Until it is closed or a write fails, the file is a header with empty sizes and every sample written. */
    ghost predicate Valid()
      reads this, file
    {
      && Writable(format) && file.pos <= |file.data|
      && (!closed && !failed ==>
            file.data == Header(format, 0) + Encode(samples) && dataBytes == 2 * |samples| && file.pos == |file.data|)
    }

    /** The header is already written. */
    constructor (file: File, format: Format)
      requires Writable(format) && file.data == Header(format, 0) && file.pos == 44
      ensures Valid() && this.file == file && this.format == format && !closed && !failed && samples == []
    {
      this.file, this.format := file, format;
      dataBytes, closed, failed, samples := 0, false, false, [];
    }

    method Write(input: seq<Sample>) returns (n: nat, ok: bool)
      requires Valid()
      modifies this`dataBytes, this`failed, this`samples, file
      ensures Valid()
      ensures ok ==> !old(closed) && n == |input|
      ensures !old(closed) && !old(failed) && ok ==> !failed && samples == old(samples) + input
      ensures !ok && !old(closed) ==> failed
      ensures closed == old(closed) && file.faults >= old(file.faults) && (old(failed) ==> failed)
      ensures file.faults == old(file.faults) ==> (ok <==> !closed) && failed == old(failed)
    {
      if closed {
        return 0, false;
      }
      var data := EncodePCM(input);
      ghost var before := file.data;
      var written: nat;
      written, ok := file.Write(data[..]);
      dataBytes := dataBytes + written;
      if !ok || written != data.Length {
        failed := true;
        return written / 2, false;
      }
      assert data[..][..data.Length] == data[..];
      if !failed {
        Appended(before, Header(format, 0), samples, input);
      }
      samples := samples + input;
      return |input|, true;
    }

    /** Patches both sizes. Afterwards the file is complete; too much data is refused. */
    method Close() returns (ok: bool)
      requires Valid()
      modifies this`closed, file
      ensures Valid() && closed
      ensures ok && !old(closed) ==> !failed && 2 * |samples| <= MAX_U32 - 36 && file.data == Written(format, samples)
      ensures old(closed) ==> ok == !failed && file.data == old(file.data)
      ensures file.faults >= old(file.faults)
      ensures !old(closed) && file.faults == old(file.faults) ==> (ok <==> !failed && 2 * |samples| <= MAX_U32 - 36)
    {
      if closed {
        return !failed;
      }
      closed := true;
      if failed || dataBytes > MAX_U32 - 36 {
        return false;
      }
      ok := PatchSizes(FormatPayload(format), Encode(samples));
      if !ok {
        return;
      }
      ok := file.Seek(|file.data|);
    }

    method PatchSizes(ghost payload: seq<Byte>, ghost data: seq<Byte>) returns (ok: bool)
      requires file.pos <= |file.data| && |payload| == 16 && dataBytes == |data|
        && file.data == HeaderOf(payload, 0) + data
      modifies file
      ensures file.pos <= |file.data|
      ensures ok ==> file.data == HeaderOf(payload, dataBytes) + data
      ensures file.faults >= old(file.faults) && (file.faults == old(file.faults) ==> ok)
    {
      ok := Patch(4, Le4(36 + dataBytes));
      if !ok {
        return;
      }
      PatchSize(payload, data, dataBytes);
      ok := Patch(40, Le4(dataBytes));
    }

    method Patch(at: nat, field: seq<Byte>) returns (ok: bool)
      requires file.pos <= |file.data| && at + |field| <= |file.data|
      modifies file
      ensures file.pos <= |file.data|
      ensures ok ==> file.data == Overlay(old(file.data), at, field)
      ensures file.faults >= old(file.faults) && (file.faults == old(file.faults) ==> ok)
    {
      ok := file.Seek(at);
      if !ok {
        return;
      }
      var n: nat;
      n, ok := file.Write(field);
      assert field[..|field|] == field;
      ok := ok && n == |field|;
    }
  }

  /** Opens a writer on an empty file; null stands for a refused format or a failed header. */
  method NewWAVWriter(file: File, format: Format) returns (w: WAVWriter?)
    requires file.data == [] && file.pos == 0
    modifies file
    ensures w != null ==>
      fresh(w) && w.Valid() && w.file == file && w.format == format && !w.closed && !w.failed && w.samples == []
    ensures !Writable(format) ==> w == null && file.data == []
    ensures file.faults >= old(file.faults) && (file.faults == old(file.faults) ==> (w != null <==> Writable(format)))
  {
    if !Writable(format) {
      return null;
    }
    var header := Header(format, 0);
    var n, ok := file.Write(header);
    if !ok || n != |header| {
      return null;
    }
    OverlayEmpty(header);
    w := new WAVWriter(file, format);
  }

  lemma OverlayEmpty(b: seq<Byte>)
    ensures Overlay([], 0, b[..|b|]) == b
  {
    assert b[..|b|] == b;
  }

  lemma Appended(data: seq<Byte>, header: seq<Byte>, samples: seq<Sample>, input: seq<Sample>)
    requires data == header + Encode(samples)
    ensures Overlay(data, |data|, Encode(input)) == header + Encode(samples + input)
  {
    EncodeConcat(samples, input);
  }

  lemma {:induction false} EncodeConcat(a: seq<Sample>, b: seq<Sample>)
    ensures Encode(a + b) == Encode(a) + Encode(b)
  {
    if b == [] {
      assert a + b == a;
    } else {
      EncodeConcat(a, b[..|b| - 1]);
      assert (a + b)[..|a + b| - 1] == a + b[..|b| - 1];
    }
  }

  /** Overwriting the two size fields of an empty header gives the header of the data. */
  lemma PatchSize(p: seq<Byte>, d: seq<Byte>, n: nat)
    requires |p| == 16
    ensures Overlay(Overlay(HeaderOf(p, 0) + d, 4, Le4(36 + n)), 40, Le4(n)) == HeaderOf(p, n) + d
  {
    PatchParts(RIFF, Le4(36), WAVE + FMT + Le4(16) + p + DATA, Le4(0), d, Le4(36 + n), Le4(n));
    Middle(RIFF, Le4(36), WAVE, FMT, Le4(16), p, DATA, Le4(0), d);
    Middle(RIFF, Le4(36 + n), WAVE, FMT, Le4(16), p, DATA, Le4(n), d);
  }

  lemma Middle(a: seq<Byte>, b: seq<Byte>, c: seq<Byte>, d: seq<Byte>, e: seq<Byte>, f: seq<Byte>, g: seq<Byte>,
      h: seq<Byte>, i: seq<Byte>)
    ensures a + b + c + d + e + f + g + h + i == a + b + (c + d + e + f + g) + h + i
  {
  }

  lemma PatchParts(a: seq<Byte>, b: seq<Byte>, c: seq<Byte>, d: seq<Byte>, e: seq<Byte>, b': seq<Byte>, d': seq<Byte>)
    requires |a| == |b| == |b'| == |d| == |d'| == 4 && |c| == 32
    ensures Overlay(Overlay(a + b + c + d + e, 4, b'), 40, d') == a + b' + c + d' + e
  {
    OverlayMiddle(a, b, c + d + e, b');
    assert a + b + c + d + e == a + b + (c + d + e);
    assert a + b' + (c + d + e) == (a + b' + c) + d + e;
    OverlayMiddle(a + b' + c, d, e, d');
  }

  lemma OverlayMiddle(a: seq<Byte>, b: seq<Byte>, c: seq<Byte>, b': seq<Byte>)
    requires |b| == |b'|
    ensures Overlay(a + b + c, |a|, b') == a + b' + c
  {
  }

  /** One-shot writing: what is read back is the format and the samples, under the same condition. */
  method WriteWAV(file: File, format: Format, samples: seq<Sample>) returns (ok: bool)
    requires file.data == [] && file.pos == 0
    modifies file
    ensures ok ==> Writable(format) && 2 * |samples| <= MAX_U32 - 36 && file.data == Written(format, samples)
    ensures file.faults == old(file.faults) ==> (ok <==> Writable(format) && 2 * |samples| <= MAX_U32 - 36)
  {
    var w := NewWAVWriter(file, format);
    if w == null {
      return false;
    }
    var n, wrote := w.Write(samples);
    if !wrote {
      return false;
    }
    assert [] + samples == samples;
    ok := w.Close();
  }
}

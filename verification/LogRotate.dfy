/** The rotating log: a fixed number of bounded generations that always hold the newest bytes written. */
module LogRotate {
  import opened Arith
  import opened Pcm
  import opened RingBuffer

  /** Existing generations by index; 0 is the one being written. */
  type Files = map<nat, seq<Byte>>

  function Get(files: Files, g: nat): seq<Byte> {
    if g in files then files[g] else []
  }

  /** The first n generations, oldest first. */
  function Log(files: Files, n: nat): seq<Byte> {
    if n == 0 then [] else Get(files, n - 1) + Log(files, n - 1)
  }

  ghost predicate Within(files: Files, count: nat, bytes: nat) {
    && (forall g: nat {:trigger g in files} :: g in files ==> g < count)
    && (forall g: nat {:trigger Get(files, g)} :: |Get(files, g)| <= bytes)
  }

  /** The generations 1 to k are full. */
  ghost predicate Full(files: Files, k: nat, bytes: nat) {
    forall g: nat {:trigger Get(files, g)} :: 1 <= g <= k ==> |Get(files, g)| == bytes
  }

  lemma {:induction false} LogBounded(files: Files, n: nat, bytes: nat)
    requires forall g: nat {:trigger Get(files, g)} :: |Get(files, g)| <= bytes
    ensures 0 <= n * bytes && |Log(files, n)| <= n * bytes
  {
    MulNonneg(n, bytes);
    if n > 0 {
      LogBounded(files, n - 1, bytes);
      MulDist(n, 1, bytes);
    }
  }

  /** Full generations guarantee that many bytes. */
  lemma {:induction false} LogAtLeast(files: Files, n: nat, bytes: nat)
    requires n > 0 && Full(files, n - 1, bytes)
    ensures 0 <= (n - 1) * bytes && |Log(files, n)| == (n - 1) * bytes + |Get(files, 0)|
  {
    MulNonneg(n - 1, bytes);
    if n > 1 {
      LogAtLeast(files, n - 1, bytes);
      MulDist(n - 1, 1, bytes);
    } else {
      assert Log(files, 0) == [];
    }
  }

  lemma {:induction false} LogAgrees(a: Files, b: Files, n: nat)
    requires forall g: nat {:trigger Get(a, g)} :: g < n ==> Get(a, g) == Get(b, g)
    ensures Log(a, n) == Log(b, n)
  {
    if n > 0 {
      LogAgrees(a, b, n - 1);
      assert Get(a, n - 1) == Get(b, n - 1);
    }
  }

  /** Moving every generation up by one and starting an empty one keeps the log, except for the oldest. */
  lemma {:induction false} LogShifted(old': Files, new': Files, n: nat)
    requires Get(new', 0) == [] && forall g: nat {:trigger Get(new', g)} :: 1 <= g <= n ==>
      Get(new', g) == Get(old', g - 1)
    ensures Log(new', n + 1) == Log(old', n)
  {
    if n > 0 {
      LogShifted(old', new', n - 1);
      assert Get(new', n) == Get(old', n - 1);
    } else {
      assert Log(new', 0) == [];
    }
  }

  lemma {:induction false} LogAppended(files: Files, n: nat, b: seq<Byte>)
    requires n > 0 && 0 in files
    ensures Log(files[0 := files[0] + b], n) == Log(files, n) + b
  {
    var after := files[0 := files[0] + b];
    if n > 1 {
      LogAppended(files, n - 1, b);
      assert Get(after, n - 1) == Get(files, n - 1);
    } else {
      assert Log(after, 0) == [] && Log(files, 0) == [];
    }
  }

  /**
   What a log of bounded generations promises after some rotations: it is a suffix of the initial
   log and everything written since, and every generation rotated out of the first slot is full.
   */
  ghost predicate LogOk(files: Files, count: nat, bytes: nat, initial: seq<Byte>, written: seq<Byte>, rotations: nat) {
    && count > 0 && bytes > 0 && Within(files, count, bytes)
    && Suffix(Log(files, count), initial + written)
    && Full(files, if rotations < count then rotations else count - 1, bytes)
    && (rotations < count ==> |Log(files, rotations + 1)| >= |written|)
  }

  lemma AppendedOk(files: Files, count: nat, bytes: nat, initial: seq<Byte>, written: seq<Byte>, rotations: nat,
      b: seq<Byte>)
    requires LogOk(files, count, bytes, initial, written, rotations) && 0 in files && |files[0]| + |b| <= bytes
    ensures LogOk(files[0 := files[0] + b], count, bytes, initial, written + b, rotations)
  {
    var after := files[0 := files[0] + b];
    LogAppended(files, count, b);
    if rotations < count {
      LogAppended(files, rotations + 1, b);
    }
    SuffixAppend(Log(files, count), initial + written, b);
    assert initial + written + b == initial + (written + b);
    forall g: nat ensures |Get(after, g)| <= bytes && (g > 0 ==> Get(after, g) == Get(files, g)) {
      assert |Get(files, g)| <= bytes;
    }
  }

  lemma CutChunk(written: seq<Byte>, payload: seq<Byte>, n: nat, chunk: nat)
    requires n + chunk <= |payload|
    ensures written + payload[..n] + payload[n..][..chunk] == written + payload[..n + chunk]
    ensures n == |payload| ==> written + payload[..n] == written + payload
  {
  }

  lemma SuffixLast<T>(s: seq<T>, initial: seq<T>, written: seq<T>, n: nat)
    requires Suffix(s, initial + written) && (|s| >= n || |s| >= |written|)
    ensures Suffix(LastN(written, n), s)
  {
    var last := LastN(written, n);
    var all := initial + written;
    assert all[|all| - |last|..] == last;
    assert s == all[|all| - |s|..];
    assert s[|s| - |last|..] == all[|all| - |last|..];
  }

  lemma {:induction false} LogMono(files: Files, m: nat, n: nat)
    requires m <= n
    ensures |Log(files, m)| <= |Log(files, n)|
  {
    if m < n {
      LogMono(files, m, n - 1);
    }
  }

  /** The last (count - 1) * bytes written bytes are in the log, and the log stays within its share. */
  lemma NewestSurvive(files: Files, count: nat, bytes: nat, initial: seq<Byte>, written: seq<Byte>, rotations: nat,
      share: int)
    requires LogOk(files, count, bytes, initial, written, rotations) && share == (count - 1) * bytes
    ensures 0 <= share && Suffix(LastN(written, share), Log(files, count))
    ensures |Log(files, count)| <= share + bytes
  {
    LogBounded(files, count, bytes);
    MulDist(count - 1, 1, bytes);
    MulNonneg(count - 1, bytes);
    SizeSurvives(files, count, bytes, |written|, rotations, share);
    SuffixLast(Log(files, count), initial, written, share);
  }

  lemma SizeSurvives(files: Files, count: nat, bytes: nat, n: nat, rotations: nat, share: int)
    requires count > 0 && Full(files, if rotations < count then rotations else count - 1, bytes)
    requires rotations < count ==> |Log(files, rotations + 1)| >= n
    requires share == (count - 1) * bytes
    ensures |Log(files, count)| >= n || |Log(files, count)| >= share
  {
    if rotations < count {
      LogMono(files, rotations + 1, count);
    } else {
      LogAtLeast(files, count, bytes);
    }
  }

  class RotatingWriter {
    const fileCount: nat
    const fileBytes: nat
    var files: Files
    var current: nat
    var closed: bool
    /** The log when the writer was opened, everything written since, and the rotations so far. */
    ghost var initial: seq<Byte>
    ghost var written: seq<Byte>
    ghost var rotations: nat

    ghost predicate Valid()
      reads this
    {
      && 0 in files && current == |Get(files, 0)|
      && LogOk(files, fileCount, fileBytes, initial, written, rotations)
    }

    /** Opens existing generations that already respect their share. */
    constructor (existing: Files, count: nat, bytes: nat)
      requires count > 0 && bytes > 0 && Within(existing, count, bytes)
      ensures Valid() && fileCount == count && fileBytes == bytes && !closed && written == []
      ensures initial == Log(existing, count) && Log(files, count) == Log(existing, count)
    {
      fileCount, fileBytes := count, bytes;
      files := if 0 in existing then existing else existing[0 := []];
      current := if 0 in existing then |existing[0]| else 0;
      closed := false;
      initial, written, rotations := Log(existing, count), [], 0;
      new;
      LogAgrees(existing, files, count);
      forall g: nat ensures |Get(files, g)| <= bytes {
        assert Get(files, g) == Get(existing, g);
      }
    }

    method Rotate()
      requires Valid() && current == fileBytes
      modifies this`files, this`current, this`rotations
      ensures Valid() && current == 0 && rotations == old(rotations) + 1
      ensures Rotated(old(files), files, fileCount)
    {
      ghost var before := files;
      files := files - {fileCount - 1};
      MoveStart(before, fileCount, fileBytes);
      var index := fileCount as int - 2;
      while index >= 0
        invariant -1 <= index <= fileCount - 2
        invariant Moving(before, files, fileCount, index + 1)
        invariant rotations == old(rotations)
      {
        MoveOne(before, files, fileCount, index);
        if index in files {
          files := files[index + 1 := files[index]] - {index};
        }
        index := index - 1;
      }
      MoveEnd(before, files, fileCount);
      files := files[0 := []];
      current := 0;
      assert Rotated(before, files, fileCount);
      RotatedOk(before, files, fileCount, fileBytes, initial, written, rotations);
      rotations := rotations + 1;
    }

    /** Appends the payload, rotating whenever the current generation is full. */
    method Write(payload: seq<Byte>) returns (n: nat, ok: bool)
      requires Valid()
      modifies this`files, this`current, this`rotations, this`written
      ensures Valid() && ok == !closed
      ensures ok ==> n == |payload| && written == old(written) + payload
      ensures !ok ==> n == 0 && files == old(files) && written == old(written)
    {
      if closed {
        return 0, false;
      }
      n, ok := 0, true;
      while n < |payload|
        invariant Valid() && n <= |payload| && written == old(written) + payload[..n]
      {
        var chunk := WriteChunk(payload[n..]);
        CutChunk(old(written), payload, n, chunk);
        n := n + chunk;
      }
      CutChunk(old(written), payload, n, 0);
    }

    /** As much as fits the current generation, which is a new one if it was full. */
    method WriteChunk(rest: seq<Byte>) returns (chunk: nat)
      requires Valid() && rest != []
      modifies this`files, this`current, this`rotations, this`written
      ensures Valid() && 0 < chunk <= |rest| && written == old(written) + rest[..chunk]
    {
      if current == fileBytes {
        Rotate();
      }
      assert |Get(files, 0)| <= fileBytes;
      var remaining := fileBytes - current;
      chunk := if |rest| < remaining then |rest| else remaining;
      Append(rest[..chunk]);
    }

    method Append(b: seq<Byte>)
      requires Valid() && current + |b| <= fileBytes
      modifies this`files, this`current, this`written
      ensures Valid() && written == old(written) + b
    {
      AppendedOk(files, fileCount, fileBytes, initial, written, rotations, b);
      files := files[0 := files[0] + b];
      current := current + |b|;
      written := written + b;
    }

    method Close()
      requires Valid()
      modifies this`closed
      ensures Valid() && closed && files == old(files)
    {
      closed := true;
    }
  }

  /** Generations from i on have moved up by one; the slot at i is free. */
  ghost predicate Moving(before: Files, files: Files, count: nat, i: nat) {
    && i < count
    && (forall g: nat {:trigger g in files} :: g in files ==> g < count && g != i)
    && (forall g: nat {:trigger Get(files, g)} :: g < i ==> Get(files, g) == Get(before, g))
    && (forall g: nat {:trigger Get(files, g)} :: i < g < count ==> Get(files, g) == Get(before, g - 1))
  }

  /** Every generation has moved up by one, the oldest is gone and the first is new. */
  ghost predicate Rotated(before: Files, files: Files, count: nat) {
    && count > 0 && Get(files, 0) == []
    && (forall g: nat {:trigger g in files} :: g in files ==> g < count)
    && (forall g: nat {:trigger Get(files, g)} :: 1 <= g < count ==> Get(files, g) == Get(before, g - 1))
  }

  function MovedOne(files: Files, i: nat): Files {
    if i in files then files[i + 1 := files[i]] - {i} else files
  }

  lemma MoveOne(before: Files, files: Files, count: nat, i: nat)
    requires Moving(before, files, count, i + 1)
    ensures Moving(before, MovedOne(files, i), count, i)
  {
    var moved := MovedOne(files, i);
    assert Get(files, i) == Get(before, i) && Get(moved, i + 1) == Get(files, i);
    forall g: nat | i < g < count ensures Get(moved, g) == Get(before, g - 1) {
      if g > i + 1 {
        assert Get(moved, g) == Get(files, g);
      }
    }
    forall g: nat | g < i ensures Get(moved, g) == Get(before, g) {
      assert Get(moved, g) == Get(files, g);
    }
  }

  lemma MoveStart(before: Files, count: nat, bytes: nat)
    requires count > 0 && Within(before, count, bytes)
    ensures Moving(before, before - {count - 1}, count, count - 1)
  {
  }

  lemma MoveEnd(before: Files, files: Files, count: nat)
    requires Moving(before, files, count, 0)
    ensures Rotated(before, files[0 := []], count)
  {
    var started := files[0 := []];
    forall g: nat | 1 <= g < count ensures Get(started, g) == Get(before, g - 1) {
      assert Get(started, g) == Get(files, g);
    }
  }

  /** Rotating a full generation keeps every promise. */
  lemma RotatedOk(before: Files, files: Files, count: nat, bytes: nat, initial: seq<Byte>, written: seq<Byte>,
      rotations: nat)
    requires LogOk(before, count, bytes, initial, written, rotations) && Rotated(before, files, count)
    requires |Get(before, 0)| == bytes
    ensures LogOk(files, count, bytes, initial, written, rotations + 1)
  {
    RotatedSizes(before, files, count, bytes);
    LogShifted(before, files, count - 1);
    SuffixTrans(Log(files, count), Log(before, count), initial + written);
    RotatedFull(before, files, count, bytes, if rotations < count then rotations else count - 1);
    RotatedHolds(before, files, count, rotations);
  }

  lemma RotatedHolds(before: Files, files: Files, count: nat, rotations: nat)
    requires Rotated(before, files, count)
    ensures rotations + 1 < count ==> Log(files, rotations + 2) == Log(before, rotations + 1)
  {
    if rotations + 1 < count {
      LogShifted(before, files, rotations + 1);
    }
  }

  lemma RotatedSizes(before: Files, files: Files, count: nat, bytes: nat)
    requires Within(before, count, bytes) && Rotated(before, files, count)
    ensures Within(files, count, bytes)
  {
    forall g: nat ensures |Get(files, g)| <= bytes {
      if 0 < g < count {
        assert Get(files, g) == Get(before, g - 1);
      }
    }
  }

  lemma RotatedFull(before: Files, files: Files, count: nat, bytes: nat, k: nat)
    requires Full(before, k, bytes) && k < count && Rotated(before, files, count) && |Get(before, 0)| == bytes
    ensures Full(files, if k + 1 < count then k + 1 else count - 1, bytes)
  {
    forall g: nat | 1 <= g <= k + 1 && g < count ensures |Get(files, g)| == bytes {
      assert Get(files, g) == Get(before, g - 1);
    }
  }

  // ---------------------------------------------------------------- opening existing files

  /** Generations over the count are removed and each other one is cut to its share, keeping its beginning. */
  function Enforced(existing: Files, count: nat, bytes: nat): Files {
    map g | g in existing && g < count :: if |existing[g]| > bytes then existing[g][..bytes] else existing[g]
  }

  method EnforceExistingLimit(existing: Files, count: nat, bytes: nat) returns (files: Files)
    ensures files == Enforced(existing, count, bytes)
  {
    files := map g | g in existing && g < count :: existing[g];
    for index := 0 to count
      invariant files.Keys == Enforced(existing, count, bytes).Keys
      invariant forall g: nat :: g in files ==> files[g] == if g < index then Enforced(existing, count, bytes)[g]
        else existing[g]
    {
      if index in files && |files[index]| > bytes {
        files := files[index := files[index][..bytes]];
      }
    }
  }

  /** Refused unless every generation can hold a byte; the shares never add up to more than the total. */
  method NewRotatingWriter(existing: Files, totalBytes: int, count: int) returns (w: RotatingWriter?)
    ensures w == null <==> totalBytes <= 0 || count <= 0 || count > totalBytes
    ensures w != null ==>
      fresh(w) && w.Valid() && !w.closed && w.written == [] && w.fileCount == count
      && count * w.fileBytes <= totalBytes < count * (w.fileBytes + 1)
    ensures w != null ==> w.initial == Log(Enforced(existing, count, w.fileBytes), count) == Log(w.files, count)
  {
    if totalBytes <= 0 || count <= 0 || count > totalBytes {
      return null;
    }
    var bytes := totalBytes / count;
    ShareFits(totalBytes, count);
    var files := EnforceExistingLimit(existing, count, bytes);
    w := new RotatingWriter(files, count, bytes);
  }

  lemma ShareFits(total: nat, count: nat)
    requires 0 < count <= total
    ensures total / count > 0 && count * (total / count) <= total < count * (total / count + 1)
  {
    assert total == count * (total / count) + total % count;
    DivStep(total, count);
  }

  /** Some generation is longer than its share. */
  ghost predicate Oversized(existing: Files, count: nat, bytes: nat) {
    exists g: nat {:trigger Get(existing, g)} :: g < count && |Get(existing, g)| > bytes
  }

  /** What a generation is longer than its share by. */
  function Excess(existing: Files, g: nat, bytes: nat): nat {
    if |Get(existing, g)| > bytes then |Get(existing, g)| - bytes else 0
  }

  function TotalExcess(existing: Files, n: nat, bytes: nat): nat {
    if n == 0 then 0 else Excess(existing, n - 1, bytes) + TotalExcess(existing, n - 1, bytes)
  }

  /** Each generation loses its own newest bytes, as many as are over its share; so much is the log shorter. */
  lemma {:induction false} OpeningLosesEnds(existing: Files, count: nat, bytes: nat, n: nat)
    requires n <= count
    ensures forall g: nat {:trigger Get(existing, g)} :: g < n ==>
      Get(existing, g)[..|Get(existing, g)| - Excess(existing, g, bytes)] == Get(Enforced(existing, count, bytes), g)
    ensures |Log(existing, n)| == |Log(Enforced(existing, count, bytes), n)| + TotalExcess(existing, n, bytes)
  {
    if n > 0 {
      OpeningLosesEnds(existing, count, bytes, n - 1);
    }
  }

  lemma {:induction false} ExcessFree(existing: Files, n: nat, bytes: nat)
    ensures TotalExcess(existing, n, bytes) == 0 <==> !Oversized(existing, n, bytes)
  {
    if n > 0 {
      ExcessFree(existing, n - 1, bytes);
      assert Excess(existing, n - 1, bytes) > 0 <==> |Get(existing, n - 1)| > bytes;
    }
  }

  /** Opening keeps the whole existing log if and only if every generation is within its share. */
  lemma OpeningKeepsLogIff(existing: Files, count: nat, bytes: nat)
    ensures Log(Enforced(existing, count, bytes), count) == Log(existing, count) <==> !Oversized(existing, count, bytes)
  {
    OpeningLosesEnds(existing, count, bytes, count);
    ExcessFree(existing, count, bytes);
    if !Oversized(existing, count, bytes) {
      forall g: nat | g < count ensures Get(Enforced(existing, count, bytes), g) == Get(existing, g) {
        assert |Get(existing, g)| <= bytes;
      }
      LogAgrees(Enforced(existing, count, bytes), existing, count);
    }
  }

  ghost predicate SameSizes(a: Files, b: Files) {
    a.Keys == b.Keys && forall g: nat {:trigger Get(b, g)} :: |Get(b, g)| == |Get(a, g)|
  }

  /** Generation g ends in a one; everything else is zero. */
  function Marked(existing: Files, g: nat): Files {
    map k | k in existing :: seq(|existing[k]|, i => if k == g && i == |existing[k]| - 1 then 1 else 0)
  }

  lemma {:induction false} LogSplit(files: Files, g: nat, n: nat) returns (older: seq<Byte>)
    requires g < n
    ensures Log(files, n) == older + Get(files, g) + Log(files, g)
  {
    if g == n - 1 {
      older := [];
    } else {
      var rest := LogSplit(files, g, n - 1);
      older := Get(files, n - 1) + rest;
    }
  }

  lemma {:induction false} LogZero(files: Files, n: nat)
    requires forall g: nat {:trigger Get(files, g)} :: g < n ==> forall i :: 0 <= i < |Get(files, g)| ==>
      Get(files, g)[i] == 0
    ensures forall i :: 0 <= i < |Log(files, n)| ==> Log(files, n)[i] == 0
  {
    if n > 0 {
      LogZero(files, n - 1);
      assert |Get(files, n - 1)| >= 0;
    }
  }

  /** The newest oversized generation. */
  lemma {:induction false} NewestOversized(existing: Files, n: nat, bytes: nat) returns (g: nat)
    requires Oversized(existing, n, bytes)
    ensures g < n && |Get(existing, g)| > bytes && !Oversized(existing, g, bytes)
  {
    if Oversized(existing, n - 1, bytes) {
      g := NewestOversized(existing, n - 1, bytes);
    } else {
      g := n - 1;
    }
  }

  lemma MarkedSizes(existing: Files, g: nat)
    ensures SameSizes(existing, Marked(existing, g))
  {
    forall k: nat ensures |Get(Marked(existing, g), k)| == |Get(existing, k)| {
    }
  }

  /** The mark is cut off, and what remains has a zero where the old log has the mark. */
  lemma MarkedBreaks(existing: Files, count: nat, bytes: nat, g: nat)
    requires bytes > 0 && g < count && |Get(existing, g)| > bytes && !Oversized(existing, g, bytes)
    ensures var m := Marked(existing, g); !Suffix(Log(Enforced(m, count, bytes), count), Log(m, count))
  {
    var m := Marked(existing, g);
    var cut := Enforced(m, count, bytes);
    MarkedSizes(existing, g);
    forall k: nat | k < count ensures forall i :: 0 <= i < |Get(cut, k)| ==> Get(cut, k)[i] == 0 {
      assert |Get(m, k)| == |Get(existing, k)|;
    }
    LogZero(cut, count);
    forall k: nat | k < g ensures Get(cut, k) == Get(m, k) {
      assert |Get(m, k)| == |Get(existing, k)|;
    }
    LogAgrees(cut, m, g);
    var older := LogSplit(m, g, count);
    var kept := LogSplit(cut, g, count);
    var at := |Log(m, count)| - |Log(m, g)| - 1;
    assert Log(m, count)[at] == Get(m, g)[|Get(m, g)| - 1] == 1;
    assert |Log(cut, count)| > |Log(cut, g)|;
  }

  /**
   Whatever its bytes are, a log of these sizes stays a suffix of itself through opening if and only
   if nothing is cut.
   */
  lemma OpeningKeepsSuffixIff(existing: Files, count: nat, bytes: nat)
    requires bytes > 0
    ensures (forall other :: SameSizes(existing, other) ==>
      Suffix(Log(Enforced(other, count, bytes), count), Log(other, count)))
      <==> !Oversized(existing, count, bytes)
  {
    if Oversized(existing, count, bytes) {
      var g := NewestOversized(existing, count, bytes);
      MarkedSizes(existing, g);
      MarkedBreaks(existing, count, bytes, g);
    } else {
      forall other | SameSizes(existing, other)
          ensures Suffix(Log(Enforced(other, count, bytes), count), Log(other, count)) {
        forall g: nat | g < count ensures |Get(other, g)| <= bytes {
          assert |Get(existing, g)| <= bytes;
        }
        OpeningKeepsLogIff(other, count, bytes);
      }
    }
  }
}

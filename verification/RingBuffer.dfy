/** The history ring: a circular buffer of recent samples whose capacity can grow while it is in use. */
module RingBuffer {
  import opened Int64

  /** The last n elements, or all of them. */
  function LastN<T>(s: seq<T>, n: nat): (t: seq<T>)
    ensures |t| == if |s| <= n then |s| else n
  {
    if |s| <= n then s else s[|s| - n..]
  }

  ghost predicate Suffix<T>(t: seq<T>, s: seq<T>) {
    |t| <= |s| && t == s[|s| - |t|..]
  }

  lemma LastNIsSuffix<T>(s: seq<T>, n: nat)
    ensures Suffix(LastN(s, n), s)
  {
  }

  lemma SuffixTrans<T>(a: seq<T>, b: seq<T>, c: seq<T>)
    requires Suffix(a, b) && Suffix(b, c)
    ensures Suffix(a, c)
  {
  }

  /** Keeping the last n of a suffix of length at most n loses nothing more than keeping the last n of the whole. */
  lemma LastNOfAppend<T>(tail: seq<T>, all: seq<T>, more: seq<T>, n: nat)
    requires Suffix(tail, all)
    ensures Suffix(LastN(tail + more, n), all + more)
  {
    SuffixAppend(tail, all, more);
    LastNIsSuffix(tail + more, n);
    SuffixTrans(LastN(tail + more, n), tail + more, all + more);
  }

  lemma SuffixAppend<T>(tail: seq<T>, all: seq<T>, more: seq<T>)
    requires Suffix(tail, all)
    ensures Suffix(tail + more, all + more)
  {
  }

  // ---------------------------------------------------------------- the buffer seen as a sequence

  /** Physical slot of the k-th stored sample. */
  function Slot(start: nat, k: nat, cap: nat): nat
    requires start < cap && k <= cap
  {
    if start + k < cap then start + k else start + k - cap
  }

  lemma SlotIsModulo(start: nat, k: nat, cap: nat)
    requires start < cap && k <= cap
    ensures (start + k) % cap == Slot(start, k, cap)
  {
  }

  function View(buf: seq<int>, start: nat, len: nat): (v: seq<int>)
    requires len <= |buf| && (len > 0 ==> start < |buf|)
    ensures |v| == len
  {
    seq(len, k requires 0 <= k < len => buf[Slot(start, k, |buf|)])
  }

  lemma PushRoom(buf: seq<int>, start: nat, len: nat, v: int)
    requires len < |buf| && start < |buf|
    ensures View(buf[Slot(start, len, |buf|) := v], start, len + 1) == View(buf, start, len) + [v]
  {
  }

  lemma PushFull(buf: seq<int>, start: nat, v: int)
    requires start < |buf|
    ensures View(buf[start := v], Slot(start, 1, |buf|), |buf|) == View(buf, start, |buf|)[1..] + [v]
  {
  }

  class Ring {
    var samples: array<int>
    const rate: int
    var start: nat
    var length: nat

    ghost predicate Valid()
      reads this
    {
      length <= samples.Length && (samples.Length > 0 ==> start < samples.Length)
    }

    /** Stored samples, oldest first. */
    ghost function Contents(): (s: seq<int>)
      requires Valid()
      reads this, samples
      ensures |s| == length
    {
      View(samples[..], start, length)
    }

    ghost function Capacity(): nat
      reads this
    {
      samples.Length
    }

    constructor (rate: int, capacity: nat)
      ensures Valid() && fresh(samples) && this.rate == rate
      ensures Contents() == [] && Capacity() == capacity
    {
      this.rate := rate;
      samples := new int[capacity];
      start, length := 0, 0;
    }

    method Write(input: seq<int>)
      requires Valid()
      modifies this`start, this`length, samples
      ensures Valid() && Capacity() == old(Capacity())
      ensures Contents() == LastN(old(Contents()) + input, Capacity())
    {
      if samples.Length == 0 || |input| == 0 {
        assert old(Contents()) + input == if |input| == 0 then old(Contents()) else input;
        return;
      }
      if |input| >= samples.Length {
        Overwrite(input[|input| - samples.Length..]);
        start := 0;
        length := samples.Length;
        assert Contents() == input[|input| - samples.Length..];
        return;
      }
      PushAll(input);
    }

    method PushAll(input: seq<int>)
      requires Valid() && samples.Length > 0
      modifies this`start, this`length, samples
      ensures Valid() && Capacity() == old(Capacity())
      ensures Contents() == LastN(old(Contents()) + input, Capacity())
    {
      assert old(Contents()) + [] == old(Contents());
      for i := 0 to |input|
        invariant Valid() && samples == old(samples)
        invariant Contents() == LastN(old(Contents()) + input[..i], samples.Length)
      {
        Push(input[i]);
        PushedLast(old(Contents()), input, i, samples.Length);
      }
      assert input[..|input|] == input;
    }

    /** Fills the whole buffer. */
    method Overwrite(block: seq<int>)
      requires |block| == samples.Length
      modifies samples
      ensures samples[..] == block
    {
      for i := 0 to samples.Length
        invariant forall k :: 0 <= k < i ==> samples[k] == block[k]
      {
        samples[i] := block[i];
      }
    }

    /** One sample: it takes the next free slot, or the oldest one's. */
    method Push(sample: int)
      requires Valid() && samples.Length > 0
      modifies this`start, this`length, samples
      ensures Valid() && Capacity() == old(Capacity())
      ensures Contents() == (if old(length) == samples.Length then old(Contents())[1..] else old(Contents())) + [sample]
    {
      var index := (start + length) % samples.Length;
      SlotIsModulo(start, length, samples.Length);
      ghost var buf := samples[..];
      if length == samples.Length {
        PushFull(buf, start, sample);
        SlotIsModulo(start, 1, samples.Length);
        start := (start + 1) % samples.Length;
      } else {
        PushRoom(buf, start, length, sample);
        length := length + 1;
      }
      samples[index] := sample;
      assert samples[..] == buf[index := sample];
    }

    /**
     The most recent samples of a duration; none when the wrapped sample count is negative, which
     the caller cannot survive.
     */
    method Tail(duration: int) returns (ok: bool, result: seq<int>)
      requires Valid()
      ensures ok <==> duration <= 0 || length == 0 || SamplesIn(rate, duration) >= 0
      ensures ok ==> result == if duration <= 0 then []
        else LastN(Contents(), if length == 0 then 0 else SamplesIn(rate, duration))
    {
      if duration <= 0 || length == 0 {
        return true, [];
      }
      var wanted := SamplesIn(rate, duration);
      if wanted > length {
        wanted := length;
      }
      if wanted < 0 {
        return false, [];
      }
      result := CopyTail(wanted);
      return true, result;
    }

    method CopyTail(wanted: nat) returns (result: seq<int>)
      requires Valid() && wanted <= length && length > 0
      ensures result == Contents()[length - wanted..]
    {
      SlotIsModulo(start, length - wanted, samples.Length);
      var first := (start + length - wanted) % samples.Length;
      result := [];
      for i := 0 to wanted
        invariant |result| == i && forall k :: 0 <= k < i ==> result[k] == Contents()[length - wanted + k]
      {
        ViewFrom(samples[..], start, length, length - wanted, i);
        result := result + [samples[(first + i) % samples.Length]];
      }
    }

    method Reset()
      requires Valid()
      modifies this`start, this`length
      ensures Valid() && Contents() == [] && Capacity() == old(Capacity())
    {
      start := 0;
      length := 0;
    }

    /** Grows the buffer in place of a larger history; never shrinks it and keeps what is stored. */
    method EnsureDuration(duration: int) returns (ok: bool)
      requires Valid()
      modifies this`samples, this`start
      ensures Valid() && Contents() == old(Contents())
      ensures ok <==> duration >= 0
      ensures ok ==> Capacity() == if SamplesIn(rate, duration) > old(Capacity()) then SamplesIn(rate, duration)
        else old(Capacity())
      ensures !ok ==> unchanged(this)
      ensures samples == old(samples) || fresh(samples)
    {
      if duration < 0 {
        return false;
      }
      var capacity := SamplesIn(rate, duration);
      if capacity <= samples.Length {
        return true;
      }
      var next := new int[capacity];
      for index := 0 to length
        invariant forall k :: 0 <= k < index ==> next[k] == old(Contents())[k]
        invariant samples == old(samples) && unchanged(this) && unchanged(samples)
      {
        SlotIsModulo(start, index, samples.Length);
        next[index] := samples[(start + index) % samples.Length];
      }
      samples, start := next, 0;
      return true;
    }
  }

  /** Opens a ring for canonical mono audio; null stands for a refused request. */
  method NewRing(rate: int, channels: int, s16: bool, duration: int) returns (r: Ring?)
    ensures r == null <==> rate <= 0 || channels != 1 || !s16 || duration < 0 || SamplesIn(rate, duration) < 0
    ensures r != null ==>
      fresh(r) && fresh(r.samples) && r.Valid() && r.Contents() == [] && r.Capacity() == SamplesIn(rate, duration)
  {
    if rate <= 0 || channels != 1 || !s16 || duration < 0 || SamplesIn(rate, duration) < 0 {
      return null;
    }
    r := new Ring(rate, SamplesIn(rate, duration));
  }

  lemma PushedLast(all: seq<int>, input: seq<int>, i: nat, cap: nat)
    requires cap > 0 && i < |input|
    ensures var kept := LastN(all + input[..i], cap);
            LastN(all + input[..i + 1], cap) == (if |kept| == cap then kept[1..] else kept) + [input[i]]
  {
    assert all + input[..i + 1] == all + input[..i] + [input[i]];
  }

  /** Stepping k slots on from the j-th stored sample reaches the (j + k)-th. */
  lemma ViewFrom(buf: seq<int>, start: nat, len: nat, j: nat, k: nat)
    requires start < |buf| && len <= |buf| && j + k < len
    ensures buf[(Slot(start, j, |buf|) + k) % |buf|] == View(buf, start, len)[j + k]
  {
    SlotIsModulo(Slot(start, j, |buf|), k, |buf|);
  }

  // ---------------------------------------------------------------- whole runs

  datatype Op = Write(samples: seq<int>) | Grow(capacity: nat) | Reset

  /** What a ring holds and how much it can hold. */
  datatype State = State(contents: seq<int>, capacity: nat)

  function Apply(s: State, op: Op): State {
    match op
    case Write(xs) => State(LastN(s.contents + xs, s.capacity), s.capacity)
    case Grow(c) => State(s.contents, if c > s.capacity then c else s.capacity)
    case Reset => State([], s.capacity)
  }

  function ApplyAll(s: State, ops: seq<Op>): State {
    if ops == [] then s else Apply(ApplyAll(s, ops[..|ops| - 1]), ops[|ops| - 1])
  }

  /** Everything written since the last reset. */
  function Written(ops: seq<Op>): seq<int> {
    if ops == [] then [] else
      var before, op := Written(ops[..|ops| - 1]), ops[|ops| - 1];
      match op
      case Write(xs) => before + xs
      case Grow(_) => before
      case Reset => []
  }

  /** Through any growth the ring holds a suffix of what was written, and at least its first capacity's worth. */
  lemma {:induction false} HoldsRecent(capacity: nat, ops: seq<Op>)
    ensures var s := ApplyAll(State([], capacity), ops);
            && Suffix(s.contents, Written(ops))
            && capacity <= s.capacity
            && |s.contents| <= s.capacity
            && (|s.contents| >= capacity || s.contents == Written(ops))
  {
    if ops != [] {
      var before, op := ops[..|ops| - 1], ops[|ops| - 1];
      HoldsRecent(capacity, before);
      if op.Write? {
        LastNOfAppend(ApplyAll(State([], capacity), before).contents, Written(before), op.samples,
            ApplyAll(State([], capacity), before).capacity);
      }
    }
  }

  /** After a growth, further writes fill the larger buffer before anything older is lost. */
  lemma {:induction false} FillsAfterGrowth(s: State, more: seq<seq<int>>)
    requires |s.contents| <= s.capacity
    ensures ApplyAll(s, Writes(more)) == State(LastN(s.contents + Concat(more), s.capacity), s.capacity)
  {
    if more == [] {
      assert s.contents + Concat(more) == s.contents;
    } else {
      var before, xs := more[..|more| - 1], more[|more| - 1];
      FillsAfterGrowth(s, before);
      WritesSnoc(more);
      LastNTwice(s.contents + Concat(before), xs, s.capacity);
      assert s.contents + Concat(more) == s.contents + Concat(before) + xs;
    }
  }

  function Writes(more: seq<seq<int>>): (ops: seq<Op>)
    ensures |ops| == |more|
  {
    seq(|more|, i requires 0 <= i < |more| => Write(more[i]))
  }

  lemma WritesSnoc(more: seq<seq<int>>)
    requires more != []
    ensures Writes(more)[..|more| - 1] == Writes(more[..|more| - 1])
      && Writes(more)[|more| - 1] == Write(more[|more| - 1])
  {
  }

  function Concat(more: seq<seq<int>>): seq<int> {
    if more == [] then [] else Concat(more[..|more| - 1]) + more[|more| - 1]
  }

  lemma LastNTwice<T>(all: seq<T>, more: seq<T>, n: nat)
    ensures LastN(LastN(all, n) + more, n) == LastN(all + more, n)
  {
  }
}

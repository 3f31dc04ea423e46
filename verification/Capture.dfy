/** The single capture path: offsets of captured frames, and their delivery to subscribers that may fall behind. */
module Capture {
  import opened Pcm
  import opened Turns

  // ---------------------------------------------------------------- the capture loop

  datatype ReadError = NoError | XRun | EndOfInput | Broken

  /** What one read of the device returned, already converted: count is the number the source reported. */
  datatype Read = Read(count: int, samples: seq<Sample>, error: ReadError)

  datatype Ending = Cancelled | Drained | BadCount | Failed

  /** The loop reads on after this one: an overrun, or a count that makes sense and no error. */
  predicate ReadsOn(r: Read, step: nat) {
    r.error.XRun? || (0 <= r.count <= step && r.error.NoError?)
  }

  /** The loop ends with this one. A count that makes no sense comes before the error that came with it. */
  predicate EndsAs(r: Read, step: nat, ending: Ending) {
    match ending
    case Cancelled => false
    case BadCount => !r.error.XRun? && !(0 <= r.count <= step)
    case Failed => r.error.Broken? && 0 <= r.count <= step
    case Drained => r.error.EndOfInput? && 0 <= r.count <= step
  }

  /** Everything read, but for what overruns and empty reads return. */
  function Captured(input: seq<Read>): seq<Sample> {
    if input == [] then [] else Captured(input[..|input| - 1]) + Yield(input[|input| - 1])
  }

  function Yield(r: Read): seq<Sample> {
    if r.error.XRun? || r.count <= 0 then [] else r.samples
  }

  function Samples(fs: seq<Frame>): seq<Sample> {
    if fs == [] then [] else Samples(fs[..|fs| - 1]) + fs[|fs| - 1].samples
  }

  /** Each frame begins where the samples before it end. */
  ghost predicate Numbered(fs: seq<Frame>) {
    forall i {:trigger fs[i]} :: 0 <= i < |fs| ==> fs[i].offset == |Samples(fs[..i])|
  }

  lemma NumberedSnoc(fs: seq<Frame>, f: Frame)
    requires Numbered(fs) && f.offset == |Samples(fs)|
    ensures Numbered(fs + [f]) && Samples(fs + [f]) == Samples(fs) + f.samples
  {
    var all := fs + [f];
    assert all[..|fs|] == fs;
    forall i | 0 <= i < |fs| ensures all[i].offset == |Samples(all[..i])| {
      assert all[..i] == fs[..i] && all[i] == fs[i];
    }
  }

  function XRuns(input: seq<Read>): nat {
    if input == [] then 0 else XRuns(input[..|input| - 1]) + if input[|input| - 1].error.XRun? then 1 else 0
  }

  /** After the first n reads, none of which ended the loop. */
  ghost predicate SoFar(input: seq<Read>, step: nat, n: nat, frames: seq<Frame>, xruns: nat) {
    && n <= |input| && (forall k {:trigger input[k]} :: 0 <= k < n ==> ReadsOn(input[k], step))
    && Numbered(frames) && Samples(frames) == Captured(input[..n]) && xruns == XRuns(input[..n])
  }

  lemma OneMore(input: seq<Read>, step: nat, n: nat, frames: seq<Frame>, xruns: nat)
    requires SoFar(input, step, n, frames, xruns) && n < |input|
    ensures var r := input[n];
            var f := Frame(|Samples(frames)|, r.samples);
            && (r.error.XRun? ==> SoFar(input, step, n + 1, frames, xruns + 1))
            && (!r.error.XRun? && r.count > 0 ==>
                  Numbered(frames + [f]) && Samples(frames + [f]) == Captured(input[..n]) + Yield(r))
            && (r.error.NoError? && 0 <= r.count <= step ==>
                  SoFar(input, step, n + 1, if r.count > 0 then frames + [f] else frames, xruns))
  {
    assert input[..n + 1][..n] == input[..n];
    NumberedSnoc(frames, Frame(|Samples(frames)|, input[n].samples));
  }

  /**
   The loop stops at the first read that is neither an overrun nor in order, and for its reason; the end of
   the input may still bring samples. An overrun costs the device's samples but never renumbers the stream.
   */
  method RunCapture(input: seq<Read>, step: nat)
      returns (frames: seq<Frame>, xruns: nat, ending: Ending, ghost stop: nat)
    ensures stop <= |input| && forall k :: 0 <= k < stop ==> ReadsOn(input[k], step)
    ensures if ending.Cancelled? then stop == |input| else stop < |input| && EndsAs(input[stop], step, ending)
    ensures xruns == XRuns(input[..stop])
    ensures Numbered(frames)
    ensures Samples(frames) == Captured(input[..stop]) + if ending.Drained? then Yield(input[stop]) else []
  {
    frames, xruns := [], 0;
    var offset := 0;
    for k := 0 to |input|
      invariant SoFar(input, step, k, frames, xruns) && offset == |Samples(frames)|
    {
      var r := input[k];
      OneMore(input, step, k, frames, xruns);
      if r.error.XRun? {
        xruns := xruns + 1;
        continue;
      }
      if r.count < 0 || r.count > step {
        return frames, xruns, BadCount, k;
      }
      if r.error.Broken? {
        return frames, xruns, Failed, k;
      }
      if r.count > 0 {
        frames := frames + [Frame(offset, r.samples)];
        offset := offset + |r.samples|;
      }
      if r.error.EndOfInput? {
        return frames, xruns, Drained, k;
      }
    }
    return frames, xruns, Cancelled, |input|;
  }

  // ---------------------------------------------------------------- fan-out

  /** A bounded channel of one subscriber; taken and sent are the whole past of both ends. */
  class Subscription {
    const depth: nat
    var frames: seq<Frame>
    var dropped: nat
    ghost var taken: seq<Frame>
    ghost var sent: seq<Frame>

    /** The reader gets the sent frames in order, each once, except for the counted drops. */
    ghost predicate Valid()
      reads this
    {
      |frames| <= depth && Thinned(taken + frames, sent) && |taken| + |frames| + dropped == |sent|
    }

    constructor (depth: nat)
      requires depth > 0
      ensures Valid() && this.depth == depth && sent == [] && frames == [] && dropped == 0
    {
      this.depth, frames, dropped, taken, sent := depth, [], 0, [], [];
    }

    /** A full channel never blocks the capture loop: the frame is dropped for this subscriber alone. */
    method Offer(f: Frame)
      requires Valid()
      modifies this
      ensures Valid() && sent == old(sent) + [f] && taken == old(taken)
      ensures old(|frames|) < depth ==> frames == old(frames) + [f] && dropped == old(dropped)
      ensures old(|frames|) >= depth ==> frames == old(frames) && dropped == old(dropped) + 1
    {
      ThinnedSnoc(taken + frames, sent, f);
      if |frames| < depth {
        assert taken + (frames + [f]) == taken + frames + [f];
        frames := frames + [f];
      } else {
        dropped := dropped + 1;
      }
      sent := sent + [f];
    }

    method Receive() returns (f: Frame)
      requires Valid() && frames != []
      modifies this
      ensures Valid() && sent == old(sent) && dropped == old(dropped)
      ensures old(frames) == [f] + frames && taken == old(taken) + [f]
    {
      f := frames[0];
      assert taken + frames == taken + [f] + frames[1..];
      taken, frames := taken + [f], frames[1..];
    }
  }

  /** part is all with some elements left out. */
  ghost predicate Thinned<T>(part: seq<T>, all: seq<T>)
    decreases |all|
  {
    if part == [] then true
    else if all == [] then false
    else
      (part[|part| - 1] == all[|all| - 1] && Thinned(part[..|part| - 1], all[..|all| - 1]))
          || Thinned(part, all[..|all| - 1])
  }

  lemma ThinnedSnoc<T>(part: seq<T>, all: seq<T>, x: T)
    requires Thinned(part, all)
    ensures Thinned(part, all + [x]) && Thinned(part + [x], all + [x])
  {
    assert (all + [x])[..|all|] == all && (part + [x])[..|part|] == part;
  }

  /** Without drops a subscriber has received or will receive exactly what was sent. */
  lemma {:induction false} NothingThinned<T>(part: seq<T>, all: seq<T>)
    requires Thinned(part, all)
    ensures |part| <= |all| && (|part| == |all| ==> part == all)
    decreases |all|
  {
    if part != [] {
      var p, a := part[..|part| - 1], all[..|all| - 1];
      if Thinned(part, a) {
        NothingThinned(part, a);
      } else {
        NothingThinned(p, a);
        assert part == p + [part[|part| - 1]] && all == a + [all[|all| - 1]];
      }
    }
  }
}

/** When a wake request's pre-roll joins the coordinator's frames without an overrun. */
module HandoffJoin {
  import opened Wrappers
  import opened Int64
  import opened Pcm
  import opened Turns
  import opened Handoff
  import RingBuffer
  import E = Endpointing
  import R = Rows
  import W = Wake
  import WR = WakeRuns

  const FRAME: nat := 1280

  // ---------------------------------------------------------------- the position of a wake event

  /** A sample count survives the conversion to a duration and back exactly while it fits 64-bit nanoseconds. */
  lemma PositionRoundTrip(n: nat)
    ensures SamplesIn(RATE, DurationOf(n, RATE)) == n <==> n <= 9_223_372_036
  {
    if n <= 9_223_372_036 {
      assert n * NS_PER_SECOND == n * 62_500 * RATE;
      assert DurationOf(n, RATE) == n * 62_500;
    } else {
      var d := DurationOf(n, RATE);
      assert SamplesIn(RATE, d) <= MAX / NS_PER_SECOND;
    }
  }

  /**
   A wake event asks for exactly the audio that was captured before it, if the pipeline's
   subscription dropped nothing and the position is representable.
   */
  lemma WakeRequestSound(heard: seq<Sample>, preRoll: seq<Sample>, position: int, stream: seq<Sample>, trigger: int)
    requires |heard| <= |stream| && heard == stream[..|heard|]
    requires RingBuffer.Suffix(preRoll, heard) && position == DurationOf(|heard|, RATE)
    requires |heard| <= 9_223_372_036
    ensures var q := Request(trigger, preRoll, SamplesIn(RATE, position) - |preRoll|);
            Sound(q, stream) && q.offset + |q.preRoll| == |heard|
  {
    PositionRoundTrip(|heard|);
  }

  /**
   From the pipeline's state to the coordinator's request: an event of the next step, with all that
   was heard a prefix of the captured stream, asks for exactly the samples captured before it.
   */
  lemma WakeEventIsSound(world: W.World, s: W.Pipe, step: seq<int>, capacity: nat, e: W.Event, stream: seq<Sample>,
                         preRoll: seq<Sample>, trigger: int)
    requires WR.Consistent(world, s, capacity)
    requires W.Process(world, W.Heard(s, step), step).Stepped? && e in W.Process(world, W.Heard(s, step), step).events
    requires preRoll == e.preRoll
    requires var n := |R.Join(s.shown + [step])|;
             n <= |stream| && R.Join(s.shown + [step]) == stream[..n] && n <= 9_223_372_036
    ensures var q := Request(trigger, preRoll, SamplesIn(RATE, e.position) - |preRoll|);
            Sound(q, stream) && q.offset + |q.preRoll| == |R.Join(s.shown + [step])|
  {
    var n := |R.Join(s.shown + [step])|;
    WR.EventPosition(world, s, step, capacity, e, n);
    WR.EventPreRoll(world, s, step, capacity, e, W.Wanted(world.configs(|s.shown|)));
    WakeRequestSound(stream[..n], preRoll, e.position, stream, trigger);
  }

  // ---------------------------------------------------------------- joining the remembered frames

  ghost predicate Ordered(fs: seq<Frame>) {
    forall i, j {:trigger fs[i], fs[j]} :: 0 <= i < j < |fs| ==> fs[i].End() <= fs[j].offset
  }

  function LastEnd(fs: seq<Frame>, default: int): int {
    if fs == [] then default else fs[|fs| - 1].End()
  }

  function Later(a: int, b: int): int {
    if a >= b then a else b
  }

  /** Every frame that reaches beyond p begins at or before p, or where the frame before it ends. */
  ghost predicate Gapless(fs: seq<Frame>, p: int) {
    forall i {:trigger fs[i]} :: 0 <= i < |fs| && fs[i].End() > p ==>
      fs[i].offset <= p || (i > 0 && fs[i - 1].End() == fs[i].offset)
  }

  lemma GaplessSnoc(fs: seq<Frame>, f: Frame, p: int)
    ensures Gapless(fs + [f], p) <==>
      Gapless(fs, p) && (f.End() > p ==> f.offset <= p || (fs != [] && fs[|fs| - 1].End() == f.offset))
  {
    var all := fs + [f];
    assert all[|fs|] == f;
    assert forall i :: 0 <= i < |fs| ==> all[i] == fs[i];
  }

  lemma AppendKeepsFields(score: E.Detector, c: Coord, f: Frame)
    ensures var (d, _) := Appended(score, c, f);
            d.active == c.active && d.droppedAt == c.droppedAt && d.history == c.history
                && d.historySize == c.historySize
  {
  }

  lemma {:induction false} HistoryKeepsFields(score: E.Detector, c: Coord, fs: seq<Frame>)
    ensures var (d, _) := AppendedAll(score, c, fs);
            d.active == c.active && d.droppedAt == c.droppedAt && d.history == c.history
                && d.historySize == c.historySize
  {
    if fs != [] {
      HistoryKeepsFields(score, c, fs[..|fs| - 1]);
      AppendKeepsFields(score, AppendedAll(score, c, fs[..|fs| - 1]).0, fs[|fs| - 1]);
    }
  }

  /** A frame that begins at or before the turn's end extends it; one that begins later is a gap. */
  lemma AppendMoves(score: E.Detector, c: Coord, f: Frame)
    ensures var (d, stop) := Appended(score, c, f);
            && (stop == Some(CaptureOverrun) <==> f.End() > c.nextOffset && f.offset > c.nextOffset)
            && (stop != Some(CaptureOverrun) ==> d.nextOffset == Later(c.nextOffset, f.End()))
  {
  }

  /** Adding the remembered frames overruns only over a gap after p; over a gap it never passes silently. */
  lemma {:induction false} HistoryJoins(score: E.Detector, c: Coord, fs: seq<Frame>)
    requires Ordered(fs)
    ensures var (d, stop) := AppendedAll(score, c, fs);
            && (stop.None? ==>
                  && Gapless(fs, c.nextOffset)
                  && d.nextOffset == Later(c.nextOffset, LastEnd(fs, c.nextOffset)))
            && (stop == Some(CaptureOverrun) ==> !Gapless(fs, c.nextOffset))
  {
    if fs != [] {
      var before, f := fs[..|fs| - 1], fs[|fs| - 1];
      assert fs == before + [f];
      HistoryJoins(score, c, before);
      AppendMoves(score, AppendedAll(score, c, before).0, f);
      JoinOne(before, f, c.nextOffset);
    }
  }

  lemma JoinOne(before: seq<Frame>, f: Frame, p: int)
    requires Ordered(before + [f])
    ensures Ordered(before) && (Gapless(before + [f], p) ==> Gapless(before, p))
    ensures Gapless(before, p) ==>
      var next := Later(p, LastEnd(before, p));
      && (Gapless(before + [f], p) <==> !(f.End() > next && f.offset > next))
      && (Gapless(before + [f], p) ==> Later(next, f.End()) == Later(p, f.End()))
  {
    var all := before + [f];
    assert all[|before|] == f;
    assert forall i :: 0 <= i < |before| ==> all[i] == before[i];
    GaplessSnoc(before, f, p);
    if before != [] {
      assert all[|before| - 1].End() <= f.offset;
    }
  }

  function Total(fs: seq<Frame>): nat {
    if fs == [] then 0 else |fs[0].samples| + Total(fs[1..])
  }

  /** The frames cover exactly the stretch between two positions. */
  ghost predicate Chain(fs: seq<Frame>, from: int, to: int) {
    if fs == [] then from == to else fs[0].offset == from && Chain(fs[1..], fs[0].End(), to)
  }

  lemma {:induction false} ChainTotal(fs: seq<Frame>, from: int, to: int)
    requires Chain(fs, from, to)
    ensures to == from + Total(fs)
  {
    if fs != [] {
      ChainTotal(fs[1..], fs[0].End(), to);
    }
  }

  lemma {:induction false} ChainSnoc(fs: seq<Frame>, from: int, f: Frame)
    requires Chain(fs, from, f.offset)
    ensures Chain(fs + [f], from, f.End())
  {
    if fs == [] {
      assert (fs + [f])[1..] == [];
    } else {
      ChainSnoc(fs[1..], fs[0].End(), f);
      assert (fs + [f])[1..] == fs[1..] + [f];
    }
  }

  lemma {:induction false} TotalSnoc(fs: seq<Frame>, f: Frame)
    ensures Total(fs + [f]) == Total(fs) + |f.samples|
  {
    if fs == [] {
      assert (fs + [f])[1..] == [];
    } else {
      TotalSnoc(fs[1..], f);
      assert (fs + [f])[1..] == fs[1..] + [f];
    }
  }

  lemma {:induction false} ChainAt(fs: seq<Frame>, from: int, to: int, i: nat)
    requires Chain(fs, from, to) && i < |fs|
    ensures fs[i].offset == if i == 0 then from else fs[i - 1].End()
    ensures fs[|fs| - 1].End() == to
  {
    if i > 0 {
      ChainAt(fs[1..], fs[0].End(), to, i - 1);
    } else if |fs| > 1 {
      ChainAt(fs[1..], fs[0].End(), to, 0);
    }
  }

  // ---------------------------------------------------------------- the history of an idle coordinator

  /** The frames from the k-th on cover s to at, and nothing remembered lies beyond. */
  ghost predicate Covered(history: seq<Frame>, k: nat, s: int, at: int) {
    && Ordered(history)
    && (forall i {:trigger history[i]} :: 0 <= i < |history| ==> history[i].End() <= at)
    && k <= |history| && Chain(history[k..], s, at)
  }

  /** A position inside the covered stretch, or beyond it, joins. */
  lemma CoverIsGapless(history: seq<Frame>, k: nat, s: int, at: int, p: int)
    requires Covered(history, k, s, at) && s <= p
    ensures Gapless(history, p)
    ensures p >= at || LastEnd(history, p) == at
  {
    var tail := history[k..];
    forall i | 0 <= i < |history| && history[i].End() > p
      ensures history[i].offset <= p || (i > 0 && history[i - 1].End() == history[i].offset)
    {
      if i < k {
        BeforeCover(history, k, s, at, i);
      } else {
        ChainAt(tail, s, at, i - k);
        assert tail[i - k] == history[i];
      }
    }
    if p < at {
      ChainTotal(tail, s, at);
      if tail != [] {
        ChainAt(tail, s, at, 0);
        assert tail[|tail| - 1] == history[|history| - 1];
      }
    }
  }

  lemma BeforeCover(history: seq<Frame>, k: nat, s: int, at: int, i: nat)
    requires Covered(history, k, s, at) && i < k
    ensures history[i].End() <= s
  {
    if k < |history| {
      assert history[k..][0] == history[k];
    }
  }

  ghost predicate Short(fs: seq<Frame>) {
    forall i {:trigger fs[i]} :: 0 <= i < |fs| ==> |fs[i].samples| <= FRAME
  }

  const KEPT: int := HISTORY_SAMPLES - FRAME

  lemma CoverRest(history: seq<Frame>, k: nat, s: int, at: int)
    requires Covered(history, k, s, at) && history != []
    ensures k > 0 ==> Covered(history[1..], k - 1, s, at)
    ensures k == 0 ==>
      && Covered(history[1..], 0, history[0].End(), at)
      && Total(history) == at - s && history[0].offset == s
  {
    var rest := history[1..];
    if k > 0 {
      assert rest[k - 1..] == history[k..];
    } else {
      assert history[0..] == history && rest[0..] == rest;
      ChainTotal(history, s, at);
    }
  }

  /** Dropping the oldest frames keeps the cover, or the last KEPT samples of it. */
  lemma {:induction false} TrimCovers(history: seq<Frame>, size: int, k: nat, s: int, at: int)
      returns (k': nat, s': int)
    requires Covered(history, k, s, at) && Short(history) && size == Total(history)
    ensures var (h, n) := Trimmed(history, size);
            Covered(h, k', s', at) && Short(h) && n == Total(h) && s' <= Later(s, at - KEPT)
    decreases |history|
  {
    if size > HISTORY_SAMPLES && history != [] {
      CoverRest(history, k, s, at);
      var rest, size' := history[1..], size - |history[0].samples|;
      if k > 0 {
        k', s' := TrimCovers(rest, size', k - 1, s, at);
      } else {
        k', s' := TrimCovers(rest, size', 0, history[0].End(), at);
      }
    } else {
      k', s' := k, s;
    }
  }

  lemma RememberCovers(c: Coord, f: Frame, k: nat, s: int) returns (k': nat, s': int)
    requires Covered(c.history, k, s, f.offset) && Short(c.history) && c.historySize == Total(c.history)
      && |f.samples| <= FRAME
    ensures var d := Remembered(c, f);
            && Covered(d.history, k', s', f.End()) && Short(d.history) && d.historySize == Total(d.history)
            && s' <= Later(s, f.End() - KEPT)
  {
    TotalSnoc(c.history, f);
    CoverSnoc(c.history, k, s, f);
    k', s' := TrimCovers(c.history + [f], c.historySize + |f.samples|, k, s, f.End());
  }

  lemma CoverSnoc(history: seq<Frame>, k: nat, s: int, f: Frame)
    requires Covered(history, k, s, f.offset)
    ensures Covered(history + [f], k, s, f.End())
  {
    ChainSnoc(history[k..], s, f);
    assert (history + [f])[k..] == history[k..] + [f];
  }

  // ---------------------------------------------------------------- runs without drops

  /** How far the coordinator has read the stream. */
  function Consumed(w: World): int {
    |w.stream| - Total(w.queue)
  }

  /** Nothing is missing between what the coordinator has read and what has been captured. */
  ghost predicate Smooth(w: World) {
    Chain(w.queue, Consumed(w), |w.stream|)
  }

  lemma SmoothStep(score: E.Detector, w: World, e: Event)
    requires Smooth(w) && Step(score, w, e).dropped == w.dropped
    ensures Smooth(Step(score, w, e))
    ensures Consumed(Step(score, w, e)) == if Takes(w, e) then w.queue[0].End() else Consumed(w)
  {
    if e.Capture? {
      var f := Frame(|w.stream|, e.samples);
      TotalSnoc(w.queue, f);
      ChainSnoc(w.queue, Consumed(w), f);
    }
  }

  /** What is remembered, then what is queued, comes from the stream in order; endings are of started turns. */
  ghost predicate Tidy(w: World) {
    && Ordered(w.coord.history + w.queue) && Bounded(w.coord.history, |w.stream|) && Bounded(w.queue, |w.stream|)
    && w.coord.historySize == Total(w.coord.history)
    && (forall i {:trigger w.finishing[i]} :: 0 <= i < |w.finishing| ==> w.finishing[i].turn <= w.turns)
  }

  ghost predicate Brief(w: World) {
    Short(w.coord.history) && Short(w.queue)
  }

  lemma {:induction false} TrimIsSuffix(history: seq<Frame>, size: int) returns (k: nat)
    requires size == Total(history)
    ensures k <= |history| && Trimmed(history, size).0 == history[k..]
      && Trimmed(history, size).1 == Total(history[k..])
    decreases |history|
  {
    if size > HISTORY_SAMPLES && history != [] {
      k := TrimIsSuffix(history[1..], size - |history[0].samples|);
      assert history[1..][k..] == history[k + 1..];
      k := k + 1;
    } else {
      k := 0;
      assert history[0..] == history;
    }
  }

  lemma TidyTakeFrame(score: E.Detector, w: World)
    requires Tidy(w) && Takes(w, TakeFrame)
    ensures Tidy(Step(score, w, TakeFrame))
  {
    var c, f, rest := w.coord, w.queue[0], w.queue[1..];
    assert c.history + w.queue == c.history + [f] + rest;
    if c.active {
      AppendKeepsFields(score, c, f);
      OrderedParts(c.history, [f], rest);
    } else {
      TidyRemember(c, f, rest, |w.stream|);
    }
  }

  lemma TidyRemember(c: Coord, f: Frame, rest: seq<Frame>, end: int)
    requires Ordered(c.history + [f] + rest) && Bounded(c.history, end) && f.End() <= end
    requires c.historySize == Total(c.history)
    ensures var d := Remembered(c, f);
            Ordered(d.history + rest) && Bounded(d.history, end) && d.historySize == Total(d.history)
  {
    TotalSnoc(c.history, f);
    var all := c.history + [f];
    BoundsSnoc(c.history, f, end);
    var k := TrimIsSuffix(all, c.historySize + |f.samples|);
    OrderedSuffix(all, rest, k);
    BoundsSuffix(all, k, end);
  }

  ghost predicate Bounded(fs: seq<Frame>, end: int) {
    forall i {:trigger fs[i]} :: 0 <= i < |fs| ==> fs[i].End() <= end
  }

  lemma BoundsSnoc(fs: seq<Frame>, f: Frame, end: int)
    requires Bounded(fs, end) && f.End() <= end
    ensures Bounded(fs + [f], end)
  {
  }

  lemma BoundsSuffix(fs: seq<Frame>, k: nat, end: int)
    requires k <= |fs| && Bounded(fs, end)
    ensures Bounded(fs[k..], end)
  {
  }

  lemma OrderedParts(a: seq<Frame>, b: seq<Frame>, c: seq<Frame>)
    requires Ordered(a + b + c)
    ensures Ordered(a + c)
  {
    var all := a + b + c;
    forall i, j | 0 <= i < j < |a + c| ensures (a + c)[i].End() <= (a + c)[j].offset {
      var i', j' := if i < |a| then i else i + |b|, if j < |a| then j else j + |b|;
      assert all[i'] == (a + c)[i] && all[j'] == (a + c)[j];
    }
  }

  lemma OrderedSuffix(a: seq<Frame>, b: seq<Frame>, k: nat)
    requires Ordered(a + b) && k <= |a|
    ensures Ordered(a[k..] + b)
  {
    assert a + b == a[..k] + (a[k..] + b);
    forall i, j | 0 <= i < j < |a[k..] + b| ensures (a[k..] + b)[i].End() <= (a[k..] + b)[j].offset {
      assert (a + b)[k + i] == (a[k..] + b)[i] && (a + b)[k + j] == (a[k..] + b)[j];
    }
  }

  lemma TidyStep(score: E.Detector, w: World, e: Event)
    requires Tidy(w)
    ensures Tidy(Step(score, w, e))
  {
    if e.TakeFrame? {
      if Takes(w, e) {
        TidyTakeFrame(score, w);
      }
    } else if e.TakeTrigger? {
      TidyTakeTrigger(score, w);
    } else {
      TidyElsewhere(score, w, e);
    }
  }

  lemma TidyElsewhere(score: E.Detector, w: World, e: Event)
    requires Tidy(w) && !e.TakeFrame? && !e.TakeTrigger?
    ensures Tidy(Step(score, w, e))
  {
    if e.Capture? {
      TidyCapture(score, w, e.samples);
    } else {
      TidySame(score, w, e);
    }
  }

  lemma TidyCapture(score: E.Detector, w: World, xs: seq<Sample>)
    requires Tidy(w)
    ensures Tidy(Step(score, w, Capture(xs)))
  {
    var f := Frame(|w.stream|, xs);
    assert w.coord.history + (w.queue + [f]) == w.coord.history + w.queue + [f];
  }

  /** The other events touch neither what is remembered nor what is queued. */
  lemma TidySame(score: E.Detector, w: World, e: Event)
    requires Tidy(w) && !e.TakeFrame? && !e.TakeTrigger? && !e.Capture?
    ensures Tidy(Step(score, w, e))
  {
    var w' := Step(score, w, e);
    assert w'.queue == w.queue && w'.stream == w.stream && w'.turns == w.turns;
    assert w'.coord.history == w.coord.history && w'.coord.historySize == w.coord.historySize;
  }

  lemma TidyTakeTrigger(score: E.Detector, w: World)
    requires Tidy(w)
    ensures Tidy(Step(score, w, TakeTrigger))
  {
    if Starts(w, TakeTrigger) {
      HistoryKeepsFields(score, Opened(w.coord, w.triggers[0], w.dropped), w.coord.history);
    }
  }

  lemma {:induction false} TidyRun(score: E.Detector, w: World, events: seq<Event>)
    requires Tidy(w)
    ensures Tidy(Run(score, w, events))
  {
    if events != [] {
      TidyRun(score, w, events[..|events| - 1]);
      TidyStep(score, Run(score, w, events[..|events| - 1]), events[|events| - 1]);
    }
  }

  lemma AlwaysTidy(score: E.Detector, w: World, events: seq<Event>)
    requires Initial(w)
    ensures Tidy(Run(score, w, events))
  {
    TidyRun(score, w, events);
  }

  lemma {:induction false} TrimIsEnough(history: seq<Frame>, size: int)
    requires size == Total(history)
    ensures Trimmed(history, size).1 <= HISTORY_SAMPLES
    decreases |history|
  {
    if size > HISTORY_SAMPLES && history != [] {
      TrimIsEnough(history[1..], size - |history[0].samples|);
    }
  }

  lemma RememberIsBounded(c: Coord, f: Frame)
    requires c.historySize == Total(c.history)
    ensures Remembered(c, f).historySize <= HISTORY_SAMPLES
  {
    TotalSnoc(c.history, f);
    TrimIsEnough(c.history + [f], c.historySize + |f.samples|);
  }

  lemma BoundedStep(score: E.Detector, w: World, e: Event)
    requires Tidy(w) && w.coord.historySize <= HISTORY_SAMPLES
    ensures Step(score, w, e).coord.historySize <= HISTORY_SAMPLES
  {
    if Takes(w, e) {
      if w.coord.active {
        AppendKeepsFields(score, w.coord, w.queue[0]);
      } else {
        RememberIsBounded(w.coord, w.queue[0]);
      }
    } else if Starts(w, e) {
      HistoryKeepsFields(score, Opened(w.coord, w.triggers[0], w.dropped), w.coord.history);
    }
  }

  /** On every run at most five seconds are remembered. */
  lemma {:induction false} MemoryIsBounded(score: E.Detector, w: World, events: seq<Event>)
    requires Initial(w)
    ensures var c := Run(score, w, events).coord; Total(c.history) == c.historySize <= 5 * 16_000
  {
    AlwaysTidy(score, w, events);
    if events != [] {
      MemoryIsBounded(score, w, events[..|events| - 1]);
      AlwaysTidy(score, w, events[..|events| - 1]);
      BoundedStep(score, Run(score, w, events[..|events| - 1]), events[|events| - 1]);
    }
  }

  ghost predicate SmallFrames(events: seq<Event>) {
    forall n {:trigger events[n]} :: 0 <= n < |events| && events[n].Capture? ==> |events[n].samples| <= FRAME
  }

  lemma BriefStep(score: E.Detector, w: World, e: Event)
    requires Brief(w) && (e.Capture? ==> |e.samples| <= FRAME)
    ensures Brief(Step(score, w, e))
  {
    if e.TakeFrame? {
      BriefTakeFrame(score, w);
    } else if e.TakeTrigger? {
      BriefTakeTrigger(score, w);
    } else {
      BriefElsewhere(score, w, e);
    }
  }

  lemma BriefTakeFrame(score: E.Detector, w: World)
    requires Brief(w)
    ensures Brief(Step(score, w, TakeFrame))
  {
    if Takes(w, TakeFrame) {
      if w.coord.active {
        AppendKeepsFields(score, w.coord, w.queue[0]);
      } else {
        ShortTrimmed(w.coord.history + [w.queue[0]], w.coord.historySize + |w.queue[0].samples|);
      }
    }
  }

  lemma {:induction false} ShortTrimmed(history: seq<Frame>, size: int)
    requires Short(history)
    ensures Short(Trimmed(history, size).0)
    decreases |history|
  {
    if size > HISTORY_SAMPLES && history != [] {
      ShortTrimmed(history[1..], size - |history[0].samples|);
    }
  }

  lemma BriefTakeTrigger(score: E.Detector, w: World)
    requires Brief(w)
    ensures Brief(Step(score, w, TakeTrigger))
  {
    if Starts(w, TakeTrigger) {
      HistoryKeepsFields(score, Opened(w.coord, w.triggers[0], w.dropped), w.coord.history);
    }
  }

  lemma BriefElsewhere(score: E.Detector, w: World, e: Event)
    requires Brief(w) && !e.TakeFrame? && !e.TakeTrigger? && (e.Capture? ==> |e.samples| <= FRAME)
    ensures Brief(Step(score, w, e))
  {
  }

  lemma {:induction false} AlwaysBrief(score: E.Detector, w: World, events: seq<Event>)
    requires Initial(w) && SmallFrames(events)
    ensures Brief(Run(score, w, events))
  {
    if events != [] {
      AlwaysBrief(score, w, events[..|events| - 1]);
      BriefStep(score, Run(score, w, events[..|events| - 1]), events[|events| - 1]);
    }
  }

  /** A coordinator that has just become idle, with nothing missing in its queue, remembers from here on. */
  lemma IdleFromHere(w: World)
    requires Tidy(w) && Brief(w) && Smooth(w) && !w.coord.active
    ensures IdleSince(w, Consumed(w), |w.coord.history|, Consumed(w))
  {
    var h := w.coord.history;
    forall i | 0 <= i < |h| ensures h[i].End() <= Consumed(w) {
      assert (h + w.queue)[i] == h[i];
      if w.queue != [] {
        assert (h + w.queue)[|h|] == w.queue[0];
      }
    }
    assert forall i, j :: 0 <= i < j < |h| ==> (h + w.queue)[i] == h[i] && (h + w.queue)[j] == h[j];
    assert Ordered(h);
  }

  /** The idle coordinator remembers everything read since a position, or the last KEPT samples of it. */
  ghost predicate IdleSince(w: World, since: int, k: nat, s: int) {
    && !w.coord.active && Smooth(w)
    && Covered(w.coord.history, k, s, Consumed(w)) && s <= Later(since, Consumed(w) - KEPT)
    && Short(w.coord.history) && Short(w.queue) && w.coord.historySize == Total(w.coord.history)
  }

  lemma IdleStep(score: E.Detector, w: World, e: Event, since: int, k: nat, s: int) returns (k': nat, s': int)
    requires IdleSince(w, since, k, s) && (e.Capture? ==> |e.samples| <= FRAME)
    requires Step(score, w, e).dropped == w.dropped && !Step(score, w, e).coord.active
    ensures IdleSince(Step(score, w, e), since, k', s')
  {
    SmoothStep(score, w, e);
    if Takes(w, e) {
      ChainAt(w.queue, Consumed(w), |w.stream|, 0);
      k', s' := IdleObserve(score, w.coord, w.queue[0], w.dropped, k, s);
    } else {
      k', s' := k, s;
      IdleElsewhere(score, w, e);
    }
  }

  ghost predicate Quiet(score: E.Detector, w: World, events: seq<Event>) {
    && (forall n {:trigger events[..n]} :: 0 <= n <= |events| ==>
          Run(score, w, events[..n]).dropped == w.dropped && !Run(score, w, events[..n]).coord.active)
    && SmallFrames(events)
  }

  /** Through any quiet run the coordinator remembers everything since its beginning, or the last KEPT samples. */
  lemma {:induction false} IdleRun(score: E.Detector, w: World, events: seq<Event>) returns (k: nat, s: int)
    requires Tidy(w) && Brief(w) && Smooth(w) && Quiet(score, w, events)
    ensures IdleSince(Run(score, w, events), Consumed(w), k, s)
  {
    assert events[..|events|] == events;
    if events == [] {
      k, s := |w.coord.history|, Consumed(w);
      IdleFromHere(w);
    } else {
      var before := events[..|events| - 1];
      forall n | 0 <= n <= |before|
        ensures Run(score, w, before[..n]).dropped == w.dropped && !Run(score, w, before[..n]).coord.active
      {
        assert before[..n] == events[..n];
      }
      k, s := IdleRun(score, w, before);
      assert before == events[..|events| - 1];
      k, s := IdleStep(score, Run(score, w, before), events[|events| - 1], Consumed(w), k, s);
    }
  }

  lemma IdleElsewhere(score: E.Detector, w: World, e: Event)
    requires !w.coord.active && Short(w.queue) && (e.Capture? ==> |e.samples| <= FRAME)
    requires !Takes(w, e) && !Step(score, w, e).coord.active
    ensures var c := Step(score, w, e).coord; c.history == w.coord.history && c.historySize == w.coord.historySize
    ensures Short(Step(score, w, e).queue)
  {
    if Starts(w, e) {
      HistoryKeepsFields(score, Opened(w.coord, w.triggers[0], w.dropped), w.coord.history);
    }
  }

  lemma IdleObserve(score: E.Detector, c: Coord, f: Frame, dropped: nat, k: nat, s: int) returns (k': nat, s': int)
    requires !c.active && Covered(c.history, k, s, f.offset) && Short(c.history) && c.historySize == Total(c.history)
    requires |f.samples| <= FRAME
    ensures var d := Observed(score, c, f, dropped).0;
            && Covered(d.history, k', s', f.End()) && Short(d.history) && d.historySize == Total(d.history)
            && s' <= Later(s, f.End() - KEPT)
  {
    k', s' := RememberCovers(c.(nextOffset := f.End()), f, k, s);
  }

  /** Some ending launched for the current turn says that capture overran. */
  ghost predicate OwnOverrun(w: World) {
    exists i {:trigger w.finishing[i]} :: 0 <= i < |w.finishing| && w.finishing[i] == Ending(CaptureOverrun, w.turns)
  }

  /** The active turn has everything the coordinator has read, and nothing says otherwise. */
  ghost predicate Joined(w: World) {
    w.coord.active && w.coord.droppedAt == w.dropped && Smooth(w) && Consumed(w) <= w.coord.nextOffset && !OwnOverrun(w)
  }

  /** A joined turn's audio is the captured stream from its base to at least as far as the coordinator has read. */
  lemma JoinedAudio(w: World)
    requires Inv(w) && Joined(w)
    ensures var t := w.coord.turn;
            && 0 <= t.base && t.base + |Audio(t)| <= |w.stream| && Audio(t) == w.stream[t.base..t.base + |Audio(t)|]
            && t.base + |Audio(t)| >= Consumed(w)
  {
  }

  /** The active turn was ended by a remembered frame before the newest one. */
  ghost predicate Behind(w: World) {
    w.coord.active && w.coord.droppedAt == w.dropped && Smooth(w) && w.coord.nextOffset < Consumed(w)
  }

  /**
   Taking a trigger whose pre-roll ends inside what is remembered, or ahead of it, joins unless a
   frame ends it early.
   */
  lemma StartJoins(score: E.Detector, w: World, since: int, k: nat, s: int)
    requires Tidy(w) && IdleSince(w, since, k, s) && Starts(w, TakeTrigger)
    requires w.triggers[0].offset + |w.triggers[0].preRoll| >= Later(since, Consumed(w) - KEPT)
    ensures var w' := Step(score, w, TakeTrigger);
            && !OwnOverrun(w') && (if w'.coord.nextOffset < Consumed(w') then Behind(w') else Joined(w'))
            && (w'.finishing == w.finishing ==> Joined(w'))
  {
    StartOutcome(score, w.coord, w.triggers[0], w.dropped, k, s, Consumed(w));
  }

  lemma StartOutcome(score: E.Detector, c: Coord, q: Request, dropped: nat, k: nat, s: int, at: int)
    requires Covered(c.history, k, s, at) && CanStart(c) && q.offset + |q.preRoll| >= s
    ensures var (d, stop) := Started(score, c, q, dropped);
            d.active && d.droppedAt == dropped && stop != Some(CaptureOverrun) && (stop.None? ==> at <= d.nextOffset)
  {
    CoverIsGapless(c.history, k, s, at, q.offset + |q.preRoll|);
    HistoryJoins(score, Opened(c, q, dropped), c.history);
    HistoryKeepsFields(score, Opened(c, q, dropped), c.history);
  }

  lemma JoinedStep(score: E.Detector, w: World, e: Event)
    requires Joined(w)
    requires Step(score, w, e).dropped == w.dropped && Step(score, w, e).coord.active
    ensures Joined(Step(score, w, e))
  {
    SmoothStep(score, w, e);
    var w' := Step(score, w, e);
    assert forall i :: 0 <= i < |w.finishing| ==> w'.finishing[i] == w.finishing[i];
    if Takes(w, e) {
      ChainAt(w.queue, Consumed(w), |w.stream|, 0);
    }
  }

  /** A turn that was ended early meets its next frame as a gap. */
  lemma BehindStep(score: E.Detector, w: World, e: Event)
    requires Behind(w)
    requires Step(score, w, e).dropped == w.dropped && Step(score, w, e).coord.active
    ensures Behind(Step(score, w, e))
    ensures OwnOverrun(Step(score, w, e)) <==> OwnOverrun(w) || Takes(w, e)
  {
    SmoothStep(score, w, e);
    var w' := Step(score, w, e);
    assert forall i :: 0 <= i < |w.finishing| ==> w'.finishing[i] == w.finishing[i];
    if Takes(w, e) {
      ChainAt(w.queue, Consumed(w), |w.stream|, 0);
      assert w'.finishing[|w.finishing|] == Ending(CaptureOverrun, w'.turns);
    }
  }

  /** Nothing is dropped and the turn stays active through the first n events. */
  ghost predicate Undisturbed(at: nat -> World, n: nat) {
    forall k: nat {:trigger at(k)} :: k <= n ==> at(k).dropped == at(0).dropped && at(k).coord.active
  }

  lemma JoinedNext(score: E.Detector, at: nat -> World, events: seq<Event>, n: nat)
    requires Traced(score, at, events) && n < |events| && Undisturbed(at, n + 1) && Joined(at(n))
    ensures Joined(at(n + 1))
  {
    assert Follows(score, at, events, n);
    JoinedStep(score, at(n), events[n]);
  }

  /** A joined turn never overruns while its subscription drops nothing, however the consumers interleave. */
  lemma {:induction false} JoinedTurnNeverOverruns(score: E.Detector, at: nat -> World, events: seq<Event>, n: nat)
    requires Traced(score, at, events) && n <= |events| && Undisturbed(at, n) && Joined(at(0))
    ensures Joined(at(n))
  {
    if n > 0 {
      JoinedTurnNeverOverruns(score, at, events, n - 1);
      JoinedNext(score, at, events, n - 1);
    }
  }

  /** Some event among the first n is the coordinator reading a frame. */
  ghost predicate ReadsOn(at: nat -> World, events: seq<Event>, n: nat)
    requires n <= |events|
  {
    exists k: nat {:trigger at(k)} {:trigger events[k]} :: k < n && Takes(at(k), events[k])
  }

  lemma BehindNext(score: E.Detector, at: nat -> World, events: seq<Event>, n: nat)
    requires Traced(score, at, events) && n < |events| && Undisturbed(at, n + 1) && Behind(at(n))
    ensures Behind(at(n + 1)) && (OwnOverrun(at(n + 1)) <==> OwnOverrun(at(n)) || Takes(at(n), events[n]))
  {
    assert Follows(score, at, events, n);
    BehindStep(score, at(n), events[n]);
  }

  lemma {:induction false} BehindTurnOverruns(score: E.Detector, at: nat -> World, events: seq<Event>, n: nat)
    requires Traced(score, at, events) && n <= |events| && Undisturbed(at, n) && Behind(at(0)) && !OwnOverrun(at(0))
    ensures Behind(at(n)) && (OwnOverrun(at(n)) <==> ReadsOn(at, events, n))
  {
    if n > 0 {
      BehindTurnOverruns(score, at, events, n - 1);
      BehindNext(score, at, events, n - 1);
    }
  }

  /**
   On every run from the beginning, from the start of an idle stretch to the end of the turn after it,
   with nothing dropped and a request that ends no earlier than the stretch began or KEPT samples ago,
   however far either consumer is ahead of the other: an overrun is launched for the turn exactly
   when a remembered frame before the newest ended it at its start and another frame is read before
   that ending runs.
   */
  lemma WakeTurnOverrunsIff(score: E.Detector, w0: World, before: seq<Event>, w: World, idle: seq<Event>,
                            w1: World, w2: World, busy: seq<Event>, at: nat -> World)
    requires Initial(w0) && SmallFrames(before) && w == Run(score, w0, before)
    requires Smooth(w) && Quiet(score, w, idle) && w1 == Run(score, w, idle)
    requires Starts(w1, TakeTrigger) && w2 == Step(score, w1, TakeTrigger)
    requires w1.triggers[0].offset + |w1.triggers[0].preRoll| >= Later(Consumed(w), Consumed(w1) - KEPT)
    requires at == Trace(score, w2, busy) && Undisturbed(at, |busy|)
    ensures OwnOverrun(at(|busy|)) <==> w2.coord.nextOffset < Consumed(w2) && ReadsOn(at, busy, |busy|)
    ensures w2.coord.nextOffset >= Consumed(w2) ==> Joined(at(|busy|))
    ensures w2.finishing == w1.finishing ==> w2.coord.nextOffset >= Consumed(w2)
  {
    AlwaysTidy(score, w0, before);
    AlwaysBrief(score, w0, before);
    WakeTurnBegins(score, w, idle, w1);
    RunTraced(score, w2, busy);
    if Behind(w2) {
      BehindTurnOverruns(score, at, busy, |busy|);
    } else {
      JoinedTurnNeverOverruns(score, at, busy, |busy|);
    }
  }

  lemma WakeTurnBegins(score: E.Detector, w: World, idle: seq<Event>, w1: World)
    requires Tidy(w) && Brief(w) && Smooth(w) && Quiet(score, w, idle) && w1 == Run(score, w, idle)
    requires Starts(w1, TakeTrigger)
    requires w1.triggers[0].offset + |w1.triggers[0].preRoll| >= Later(Consumed(w), Consumed(w1) - KEPT)
    ensures var w2 := Step(score, w1, TakeTrigger);
            && !OwnOverrun(w2) && (if w2.coord.nextOffset < Consumed(w2) then Behind(w2) else Joined(w2))
            && (w2.finishing == w1.finishing ==> w2.coord.nextOffset >= Consumed(w2))
  {
    var k, s := IdleRun(score, w, idle);
    TidyRun(score, w, idle);
    StartJoins(score, w1, Consumed(w), k, s);
  }

  // ---------------------------------------------------------------- gaps in what is remembered

  /**
   A start and the frame after it, unless endpointing ends the turn at once: one of the two overruns
   exactly when the remembered frames and that one leave a gap after the pre-roll.
   */
  lemma OverrunsIffGap(score: E.Detector, c: Coord, q: Request, dropped: nat, f: Frame)
    requires CanStart(c) && Ordered(c.history + [f])
    requires Started(score, c, q, dropped).1 in {None, Some(CaptureOverrun)}
    ensures var (d, stop) := Started(score, c, q, dropped);
            (stop == Some(CaptureOverrun) || Observed(score, d, f, dropped).1 == Some(CaptureOverrun))
            <==> !Gapless(c.history + [f], q.offset + |q.preRoll|)
  {
    JoinOne(c.history, f, q.offset + |q.preRoll|);
    HistoryJoins(score, Opened(c, q, dropped), c.history);
    HistoryKeepsFields(score, Opened(c, q, dropped), c.history);
  }
}

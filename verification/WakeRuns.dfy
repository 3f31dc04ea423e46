/** Whole runs of the wake pipeline. */
module WakeRuns {
  import opened Wrappers
  import opened Int64
  import opened RingBuffer
  import opened Rows
  import opened Arith
  import opened Machine
  import opened Wake

  // ---------------------------------------------------------------- frame boundaries do not matter

  datatype Framed<S, E> = Framed(run: Run<S, E>, pending: seq<int>)

  /** Frames appended one at a time, whole steps processed as soon as they are complete. */
  function FrameRun<S, E>(f: (S, seq<int>) -> Outcome<S, E>, s: S, frames: seq<seq<int>>): Framed<S, E> {
    if frames == [] then Framed(Ran([], Some(s)), []) else
      var before := FrameRun(f, s, frames[..|frames| - 1]);
      if before.run.state.None? then before else
        var buffer := before.pending + frames[|frames| - 1];
        Framed(Then(f, before.run, Split(buffer, STEP)), Rest(buffer))
  }

  /** Cutting off the whole steps of a prefix first gives the same steps and the same rest. */
  lemma SplitResumes(a: seq<int>, b: seq<int>)
    ensures Split(a + b, STEP) == Split(a, STEP) + Split(Rest(a) + b, STEP)
    ensures Rest(a + b) == Rest(Rest(a) + b)
  {
    var k := |a| / STEP;
    var head := a[..k * STEP];
    assert a + b == head + (Rest(a) + b) && a == head + Rest(a);
    DivUnique(k * STEP, STEP, k, 0);
    SplitConcat(head, Rest(a) + b, STEP);
    SplitConcat(head, Rest(a), STEP);
    assert Split(Rest(a), STEP) == [];
    RestAfter(k, |Rest(a) + b|);
    assert Split(head, STEP) + [] == Split(head, STEP);
  }

  lemma RestAfter(k: nat, n: nat)
    ensures (k * STEP + n) / STEP == k + n / STEP
  {
    var q, r := n / STEP, n % STEP;
    DivUnique(k * STEP + n, STEP, k + q, r);
  }

  /** The run over any framing of the samples is the run over their whole steps. */
  lemma {:induction false} FramesAreConcatenated<S, E>(f: (S, seq<int>) -> Outcome<S, E>, s: S, frames: seq<seq<int>>)
    ensures var r := FrameRun(f, s, frames);
            && r.run == RunAll(f, s, Split(Join(frames), STEP))
            && (r.run.state.Some? ==> r.pending == Rest(Join(frames)))
  {
    if frames != [] {
      var before, last := frames[..|frames| - 1], frames[|frames| - 1];
      FramesAreConcatenated(f, s, before);
      JoinSnoc(frames);
      SplitResumes(Join(before), last);
      RunConcat(f, s, Split(Join(before), STEP), Split(Rest(Join(before)) + last, STEP));
    }
  }

  lemma JoinSnoc(frames: seq<seq<int>>)
    requires frames != []
    ensures Join(frames) == Join(frames[..|frames| - 1]) + frames[|frames| - 1]
  {
    var last := frames[|frames| - 1];
    JoinConcat(frames[..|frames| - 1], [last]);
    assert frames == frames[..|frames| - 1] + [last];
    JoinOne(last);
  }

  lemma JoinOne(frame: seq<int>)
    ensures Join([frame]) == frame
  {
    assert Join([frame][1..]) == [];
  }

  /** The pipeline's steps, events and remaining samples depend only on the concatenation of the frames. */
  lemma FrameBoundariesDoNotMatter(w: World, s: Pipe, a: seq<seq<int>>, b: seq<seq<int>>)
    requires Join(a) == Join(b)
    ensures FrameRun(StepFn(w), s, a).run == FrameRun(StepFn(w), s, b).run
    ensures FrameRun(StepFn(w), s, a).run.state.Some? ==>
      FrameRun(StepFn(w), s, a).pending == FrameRun(StepFn(w), s, b).pending
  {
    FramesAreConcatenated(StepFn(w), s, a);
    FramesAreConcatenated(StepFn(w), s, b);
  }

  // ---------------------------------------------------------------- what every event carries

  /** Voice-activity scores of all steps so far. */
  function VadScores(w: World, shown: seq<seq<int>>): (v: seq<real>)
    ensures |v| == |shown|
  {
    seq(|shown|, k requires 0 <= k < |shown| => GetOr(w.vad(shown[..k + 1]), 0.0))
  }

  /** How many of them the window holds: one more each step, cut to each step's lookback. */
  function Kept(w: World, steps: nat): nat {
    if steps == 0 then 0 else
      var room := Window(w.configs(steps - 1).lookbackMs);
      if Kept(w, steps - 1) + 1 <= room then Kept(w, steps - 1) + 1 else room
  }

  /** A step's score is kept exactly while the step began at most the lookback before the newest one. */
  lemma WindowCovers(lookbackMs: nat, stepsAgo: nat)
    ensures stepsAgo < Window(lookbackMs) <==> stepsAgo * 80 <= lookbackMs
  {
    var q := lookbackMs / 80;
    assert lookbackMs == 80 * q + lookbackMs % 80;
  }

  /** The pre-roll asked for is 16 samples a millisecond as long as none of the products wraps. */
  lemma WantedMs(c: Config)
    ensures c.preRollMs <= 576_460_752 ==> Wanted(c) == 16 * c.preRollMs
  {
  }

  lemma {:induction false} KeptConstant(w: World, steps: nat, lookbackMs: nat)
    requires forall k: nat :: k < steps ==> w.configs(k).lookbackMs == lookbackMs
    ensures Kept(w, steps) == if steps <= Window(lookbackMs) then steps else Window(lookbackMs)
  {
    if steps > 0 {
      KeptConstant(w, steps - 1, lookbackMs);
      assert w.configs(steps - 1).lookbackMs == lookbackMs;
    }
  }

  /** The ring, the position and the window agree with everything the pipeline has been shown. */
  ghost predicate Consistent(w: World, s: Pipe, capacity: nat) {
    && s.processed == |Join(s.shown)|
    && Suffix(s.ring.contents, Join(s.shown))
    && capacity <= s.ring.capacity && |s.ring.contents| <= s.ring.capacity
    && (|s.ring.contents| >= capacity || s.ring.contents == Join(s.shown))
    && s.scores == LastN(VadScores(w, s.shown), Kept(w, |s.shown|))
  }

  lemma VadScoresSnoc(w: World, shown: seq<seq<int>>, step: seq<int>)
    ensures VadScores(w, shown + [step]) == VadScores(w, shown) + [GetOr(w.vad(shown + [step]), 0.0)]
  {
    assert (shown + [step])[..|shown| + 1] == shown + [step];
    forall k | 0 <= k < |shown| ensures VadScores(w, shown + [step])[k] == VadScores(w, shown)[k] {
      assert (shown + [step])[..k + 1] == shown[..k + 1];
    }
  }

  lemma {:induction false} KeptBounded(w: World, steps: nat)
    ensures Kept(w, steps) <= steps
  {
    if steps > 0 {
      KeptBounded(w, steps - 1);
    }
  }

  lemma WindowNext(all: seq<real>, v: real, kept: nat, room: nat)
    requires kept <= |all| && room > 0
    ensures LastN(LastN(all, kept) + [v], room) == LastN(all + [v], if kept + 1 <= room then kept + 1 else room)
  {
  }

  lemma HeardNext(s: Pipe, step: seq<int>, capacity: nat)
    requires Suffix(s.ring.contents, Join(s.shown)) && capacity <= s.ring.capacity
      && |s.ring.contents| <= s.ring.capacity
    requires |s.ring.contents| >= capacity || s.ring.contents == Join(s.shown)
    ensures var all, contents := Join(s.shown) + step, Heard(s, step).ring.contents;
            && Join(s.shown + [step]) == all
            && Suffix(contents, all) && |contents| <= s.ring.capacity
            && (|contents| >= capacity || contents == all)
  {
    LastNOfAppend(s.ring.contents, Join(s.shown), step, s.ring.capacity);
    JoinSnoc(s.shown + [step]);
    assert (s.shown + [step])[..|s.shown|] == s.shown;
  }

  lemma ConsistentStep(w: World, s: Pipe, step: seq<int>, capacity: nat)
    requires Consistent(w, s, capacity) && Process(w, Heard(s, step), step).Stepped?
    ensures Consistent(w, Process(w, Heard(s, step), step).state, capacity)
  {
    HeardNext(s, step, capacity);
    ObservedScores(w, s, step);
    SteppedState(w, Heard(s, step), step);
  }

  /** Only the fed engines and the gate depend on whether a step was scored. */
  lemma SteppedState(w: World, s: Pipe, step: seq<int>)
    requires Process(w, s, step).Stepped?
    ensures w.vad(s.shown + [step]).Some?
    ensures var t, o := Observed(w, s, step, w.vad(s.shown + [step]).value), Process(w, s, step).state;
            o == t.(fed := o.fed, gate := o.gate) && |o.fed| == |s.fed|
  {
  }

  lemma ObservedScores(w: World, s: Pipe, step: seq<int>)
    requires s.scores == LastN(VadScores(w, s.shown), Kept(w, |s.shown|)) && w.vad(s.shown + [step]).Some?
    ensures Observed(w, Heard(s, step), step, w.vad(s.shown + [step]).value).scores
         == LastN(VadScores(w, s.shown + [step]), Kept(w, |s.shown| + 1))
  {
    VadScoresSnoc(w, s.shown, step);
    KeptBounded(w, |s.shown|);
    WindowNext(VadScores(w, s.shown), w.vad(s.shown + [step]).value, Kept(w, |s.shown|),
        Window(w.configs(|s.shown|).lookbackMs));
  }

  lemma ConsistentGrow(w: World, s: Pipe, capacity: nat, grown: nat)
    requires Consistent(w, s, capacity)
    ensures Consistent(w, s.(ring := Apply(s.ring, Grow(grown))), capacity)
  {
  }

  /** Steps with ring growth in between, as a configuration change causes it. */
  datatype Input = Chunk(step: seq<int>) | Enlarge(capacity: nat)

  function InputFn(w: World): (Pipe, Input) -> Outcome<Pipe, Event> {
    (s: Pipe, input: Input) =>
      match input
      case Enlarge(c) => Stepped(s.(ring := Apply(s.ring, Grow(c))), [])
      case Chunk(step) => Process(w, Heard(s, step), step)
  }

  lemma {:induction false} AlwaysConsistent(w: World, s: Pipe, inputs: seq<Input>)
    requires s.shown == [] && s.processed == 0 && s.scores == [] && s.ring.contents == []
    requires RunAll(InputFn(w), s, inputs).state.Some?
    ensures Consistent(w, RunAll(InputFn(w), s, inputs).state.value, s.ring.capacity)
  {
    if inputs != [] {
      var before := inputs[..|inputs| - 1];
      AlwaysConsistent(w, s, before);
      InputConsistent(w, RunAll(InputFn(w), s, before).state.value, inputs[|inputs| - 1], s.ring.capacity);
    }
  }

  lemma InputConsistent(w: World, s: Pipe, input: Input, capacity: nat)
    requires Consistent(w, s, capacity) && InputFn(w)(s, input).Stepped?
    ensures Consistent(w, InputFn(w)(s, input).state, capacity)
  {
    match input
    case Enlarge(c) => ConsistentGrow(w, s, capacity, c);
    case Chunk(step) => ConsistentStep(w, s, step, capacity);
  }

  lemma {:induction false} EventsShare(w: World, k: nat, c: Config, sh: Shared, scores: seq<real>, g: GateState, n: nat)
    requires n <= |scores|
    ensures forall e :: e in EventsOf(w, k, c, sh, scores, g, n) ==>
              && e.effective == sh.effective && e.position == sh.position && e.preRoll == sh.preRoll
              && e.instant == sh.instant && e.lookbackMs == sh.lookbackMs
  {
    if n > 0 {
      EventsShare(w, k, c, sh, scores, g, n - 1);
    }
  }

  /** Every event carries the position just after its step. */
  lemma EventPosition(w: World, s: Pipe, step: seq<int>, capacity: nat, e: Event, total: nat)
    requires Consistent(w, s, capacity) && total == |Join(s.shown + [step])|
    requires Process(w, Heard(s, step), step).Stepped? && e in Process(w, Heard(s, step), step).events
    ensures e.position == DurationOf(total, RATE)
  {
    HeardTotal(s, step);
    StepEvents(w, Heard(s, step), step, e);
  }

  lemma HeardTotal(s: Pipe, step: seq<int>)
    ensures |Join(s.shown + [step])| == |Join(s.shown)| + |step|
  {
    JoinSnoc(s.shown + [step]);
    assert (s.shown + [step])[..|s.shown|] == s.shown;
  }

  /**
   Its pre-roll ends at that position, and is all the samples the configuration asks for when
   the ring's first capacity covers them.
   */
  lemma EventPreRoll(w: World, s: Pipe, step: seq<int>, capacity: nat, e: Event, wanted: int)
    requires Consistent(w, s, capacity) && wanted == Wanted(w.configs(|s.shown|))
    requires Process(w, Heard(s, step), step).Stepped? && e in Process(w, Heard(s, step), step).events
    ensures Suffix(e.preRoll, Join(s.shown + [step]))
    ensures 0 <= wanted <= capacity ==> e.preRoll == LastN(Join(s.shown + [step]), wanted)
  {
    var contents, all := Heard(s, step).ring.contents, Join(s.shown + [step]);
    TailOfHeard(s, step, capacity, w.configs(|s.shown|), wanted);
    StepEvents(w, Heard(s, step), step, e);
  }

  /** Samples in the steps of a run. */
  function Fill(inputs: seq<Input>): nat {
    if inputs == [] then 0 else
      Fill(inputs[..|inputs| - 1]) + (if inputs[|inputs| - 1].Chunk? then |inputs[|inputs| - 1].step| else 0)
  }

  function Least(a: nat, b: nat): nat {
    if a <= b then a else b
  }

  /** What a run adds to the ring stays in it as far as any capacity the ring already has. */
  lemma {:induction false} Refills(w: World, s: Pipe, inputs: seq<Input>, grown: nat)
    requires RunAll(InputFn(w), s, inputs).state.Some? && grown <= s.ring.capacity
      && |s.ring.contents| <= s.ring.capacity
    ensures var t := RunAll(InputFn(w), s, inputs).state.value;
            grown <= t.ring.capacity
                && Least(grown, |s.ring.contents| + Fill(inputs)) <= |t.ring.contents| <= t.ring.capacity
  {
    if inputs != [] {
      var before, input := inputs[..|inputs| - 1], inputs[|inputs| - 1];
      Refills(w, s, before, grown);
      RefillStep(w, RunAll(InputFn(w), s, before).state.value, input, grown);
    }
  }

  lemma RefillStep(w: World, s: Pipe, input: Input, grown: nat)
    requires InputFn(w)(s, input).Stepped? && grown <= s.ring.capacity && |s.ring.contents| <= s.ring.capacity
    ensures var t := InputFn(w)(s, input).state;
            && grown <= t.ring.capacity && |t.ring.contents| <= t.ring.capacity
            && |t.ring.contents| >= Least(grown, |s.ring.contents| + (if input.Chunk? then |input.step| else 0))
  {
  }

  lemma {:induction false} ConsistentRun(w: World, s: Pipe, inputs: seq<Input>, capacity: nat)
    requires Consistent(w, s, capacity) && RunAll(InputFn(w), s, inputs).state.Some?
    ensures Consistent(w, RunAll(InputFn(w), s, inputs).state.value, capacity)
  {
    if inputs != [] {
      ConsistentRun(w, s, inputs[..|inputs| - 1], capacity);
      InputConsistent(w, RunAll(InputFn(w), s, inputs[..|inputs| - 1]).state.value, inputs[|inputs| - 1], capacity);
    }
  }

  /**
   Once the samples since the ring grew have filled it to its new capacity, an event's
   pre-roll is all the samples the configuration asks for up to that capacity.
   */
  lemma EventPreRollAfterGrowth(w: World, s: Pipe, capacity: nat, inputs: seq<Input>, t: Pipe, step: seq<int>, e: Event,
      wanted: int)
    requires Consistent(w, s, capacity) && RunAll(InputFn(w), s, inputs).state == Some(t)
    requires |s.ring.contents| + Fill(inputs) >= s.ring.capacity && wanted == Wanted(w.configs(|t.shown|))
    requires Process(w, Heard(t, step), step).Stepped? && e in Process(w, Heard(t, step), step).events
    ensures 0 <= wanted <= s.ring.capacity ==> e.preRoll == LastN(Join(t.shown + [step]), wanted)
  {
    FilledIsConsistent(w, s, capacity, inputs, t);
    EventPreRoll(w, t, step, s.ring.capacity, e, wanted);
  }

  lemma FilledIsConsistent(w: World, s: Pipe, capacity: nat, inputs: seq<Input>, t: Pipe)
    requires Consistent(w, s, capacity) && RunAll(InputFn(w), s, inputs).state == Some(t)
    requires |s.ring.contents| + Fill(inputs) >= s.ring.capacity
    ensures Consistent(w, t, s.ring.capacity)
  {
    ConsistentRun(w, s, inputs, capacity);
    Refills(w, s, inputs, s.ring.capacity);
    FullIsConsistent(w, t, capacity, s.ring.capacity);
  }

  lemma FullIsConsistent(w: World, t: Pipe, capacity: nat, grown: nat)
    requires Consistent(w, t, capacity) && grown <= |t.ring.contents|
    ensures Consistent(w, t, grown)
  {
  }

  lemma TailOfHeard(s: Pipe, step: seq<int>, capacity: nat, c: Config, wanted: int)
    requires Suffix(s.ring.contents, Join(s.shown)) && capacity <= s.ring.capacity
      && |s.ring.contents| <= s.ring.capacity
    requires |s.ring.contents| >= capacity || s.ring.contents == Join(s.shown)
    requires wanted == Wanted(c)
    ensures var p, all := GetOr(PreRoll(Heard(s, step).ring.contents, c), []), Join(s.shown + [step]);
            Suffix(p, all) && (0 <= wanted <= capacity ==> p == LastN(all, wanted))
  {
    HeardNext(s, step, capacity);
    PreRollIsTail(Heard(s, step).ring.contents, Join(s.shown + [step]), capacity, c);
  }

  lemma StepEvents(w: World, s: Pipe, step: seq<int>, e: Event)
    requires Process(w, s, step).Stepped? && e in Process(w, s, step).events
    ensures w.vad(s.shown + [step]).Some?
    ensures e.effective == Max(Observed(w, s, step, w.vad(s.shown + [step]).value).scores)
    ensures e.position == DurationOf(s.processed + |step|, RATE)
    ensures e.preRoll == GetOr(PreRoll(s.ring.contents, w.configs(|s.shown|)), [])
    ensures Some(e.instant) == w.vad(s.shown + [step]) && e.lookbackMs == w.configs(|s.shown|).lookbackMs
  {
    var c, vad := w.configs(|s.shown|), w.vad(s.shown + [step]).value;
    JudgedShare(w, Observed(w, s, step, vad), step, |s.shown|, c, vad, e);
  }

  /** It carries its step's own score and lookback; its effective score is the largest of the window's. */
  lemma EventScore(w: World, s: Pipe, step: seq<int>, capacity: nat, e: Event)
    requires Consistent(w, s, capacity)
    requires Process(w, Heard(s, step), step).Stepped? && e in Process(w, Heard(s, step), step).events
    ensures var window := LastN(VadScores(w, s.shown + [step]), Kept(w, |s.shown| + 1));
            e.effective in window && forall i :: 0 <= i < |window| ==> window[i] <= e.effective
    ensures Some(e.instant) == w.vad(s.shown + [step]) && e.lookbackMs == w.configs(|s.shown|).lookbackMs
  {
    StepEvents(w, Heard(s, step), step, e);
    ObservedScores(w, s, step);
    MaxIsMaximum(Observed(w, Heard(s, step), step, w.vad(s.shown + [step]).value).scores);
  }

  lemma JudgedShare(w: World, t: Pipe, step: seq<int>, k: nat, c: Config, instant: real, e: Event)
    requires t.scores != [] && Judged(w, t, step, k, c, instant).Stepped?
      && e in Judged(w, t, step, k, c, instant).events
    ensures e.effective == Max(t.scores) && e.position == DurationOf(t.processed, RATE)
    ensures e.preRoll == GetOr(PreRoll(t.ring.contents, c), []) && e.instant == instant && e.lookbackMs == c.lookbackMs
  {
    var wake := ScoresOf(w, t.fed, step, |w.engines|).value;
    EventsShare(w, k, c, SharedOf(t, c, instant), wake, t.gate, |w.engines|);
  }

  lemma PreRollIsTail(contents: seq<int>, all: seq<int>, capacity: nat, c: Config)
    requires Suffix(contents, all) && (|contents| >= capacity || contents == all)
    ensures var p := GetOr(PreRoll(contents, c), []);
            Suffix(p, all) && (0 <= Wanted(c) <= capacity ==> p == LastN(all, Wanted(c)))
  {
  }

  // ---------------------------------------------------------------- gating before scoring

  /** The two worlds differ at most in when their configurations score every step. */
  ghost predicate SameButScoring(v: World, w: World) {
    && v.vad == w.vad && v.engines == w.engines && v.clock == w.clock && v.dynamicConfig == w.dynamicConfig
    && forall k: nat {:trigger v.configs(k)} :: v.configs(k) == w.configs(k).(alwaysScore := v.configs(k).alwaysScore)
  }

  /** An engine's score depends on the step alone. */
  ghost predicate Memoryless(w: World) {
    forall i: nat, h: seq<seq<int>>, x: seq<int> {:trigger w.engines[i](h + [x])} ::
      i < |w.engines| ==> w.engines[i](h + [x]) == w.engines[i]([x])
  }

  ghost predicate AlwaysUsable(w: World) {
    forall i: nat, x: seq<int> {:trigger w.engines[i]([x])} :: i < |w.engines| ==> Usable(w.engines[i]([x])).Some?
  }

  ghost predicate SameButFed(s: Pipe, t: Pipe) {
    s == t.(fed := s.fed) && |s.fed| == |t.fed|
  }

  lemma {:induction false} SameScores(w: World, a: seq<seq<seq<int>>>, b: seq<seq<seq<int>>>, step: seq<int>, n: nat)
    requires Memoryless(w) && AlwaysUsable(w) && n <= |w.engines| == |a| == |b|
    ensures ScoresOf(w, a, step, n).Some? && ScoresOf(w, a, step, n) == ScoresOf(w, b, step, n)
  {
    if n > 0 {
      SameScores(w, a, b, step, n - 1);
      assert w.engines[n - 1](a[n - 1] + [step]) == w.engines[n - 1]([step]);
      assert w.engines[n - 1](b[n - 1] + [step]) == w.engines[n - 1]([step]);
    }
  }

  /** Where the voice-activity gate would have skipped scoring, no candidate passes. */
  lemma {:induction false} QuietGate(w: World, k: nat, c: Config, sh: Shared, scores: seq<real>, g: GateState, n: nat)
    requires n <= |scores| && c.vadEnabled && sh.effective < g.thresholds.vad
    ensures GateAfter(w, k, c, sh.effective, scores, g, n) == g && EventsOf(w, k, c, sh, scores, g, n) == []
  {
    if n > 0 {
      QuietGate(w, k, c, sh, scores, g, n - 1);
    }
  }

  lemma {:induction false} SameJudging(v: World, w: World, k: nat, c: Config, d: Config, sh: Shared, scores: seq<real>,
      g: GateState, n: nat)
    requires n <= |scores| && v.clock == w.clock && c.vadEnabled == d.vadEnabled
    ensures GateAfter(v, k, c, sh.effective, scores, g, n) == GateAfter(w, k, d, sh.effective, scores, g, n)
    ensures EventsOf(v, k, c, sh, scores, g, n) == EventsOf(w, k, d, sh, scores, g, n)
  {
    if n > 0 {
      SameJudging(v, w, k, c, d, sh, scores, g, n - 1);
    }
  }

  ghost predicate SameOutcome(o: Outcome<Pipe, Event>, p: Outcome<Pipe, Event>) {
    && o.Stepped? == p.Stepped?
    && (o.Stepped? ==> o.events == p.events && SameButFed(o.state, p.state))
  }

  /** A step the gate would skip changes nothing when it is scored anyway. */
  lemma ScoringSkipped(w: World, t: Pipe, step: seq<int>, k: nat, c: Config, instant: real)
    requires t.scores != [] && |t.fed| == |w.engines| && Memoryless(w) && AlwaysUsable(w)
    requires c.vadEnabled && Max(t.scores) < t.gate.thresholds.vad
    ensures SameOutcome(Judged(w, t, step, k, c, instant), Stepped(t, []))
  {
    if c.alwaysScore {
      SameScores(w, t.fed, t.fed, step, |w.engines|);
      QuietGate(w, k, c, SharedOf(t, c, instant), ScoresOf(w, t.fed, step, |w.engines|).value, t.gate, |w.engines|);
    }
  }

  lemma SameJudged(v: World, w: World, s: Pipe, t: Pipe, step: seq<int>, k: nat, instant: real)
    requires SameButScoring(v, w) && Memoryless(w) && AlwaysUsable(w)
    requires t.scores != [] && SameButFed(s, t) && |t.fed| == |w.engines|
    ensures SameOutcome(Judged(v, s, step, k, v.configs(k), instant), Judged(w, t, step, k, w.configs(k), instant))
  {
    var c, d := v.configs(k), w.configs(k);
    if c.vadEnabled && Max(t.scores) < t.gate.thresholds.vad {
      ScoringSkipped(v, s, step, k, c, instant);
      ScoringSkipped(w, t, step, k, d, instant);
    } else {
      SameScores(w, s.fed, t.fed, step, |w.engines|);
      SameScoresOf(v, w, s.fed, step, |w.engines|);
      SameJudging(v, w, k, c, d, SharedOf(t, d, instant), ScoresOf(w, t.fed, step, |w.engines|).value, t.gate,
          |w.engines|);
    }
  }

  lemma {:induction false} SameScoresOf(v: World, w: World, fed: seq<seq<seq<int>>>, step: seq<int>, n: nat)
    requires v.engines == w.engines && n <= |w.engines| == |fed|
    ensures ScoresOf(v, fed, step, n) == ScoresOf(w, fed, step, n)
  {
    if n > 0 {
      SameScoresOf(v, w, fed, step, n - 1);
    }
  }

  lemma SameStep(v: World, w: World, s: Pipe, t: Pipe, step: seq<int>)
    requires SameButScoring(v, w) && Memoryless(w) && AlwaysUsable(w) && SameButFed(s, t) && |t.fed| == |w.engines|
    ensures SameOutcome(StepFn(v)(s, step), StepFn(w)(t, step))
  {
    var k, vad := |t.shown|, Usable(w.vad(t.shown + [step]));
    assert v.configs(k) == w.configs(k).(alwaysScore := v.configs(k).alwaysScore);
    if vad.Some? {
      SameJudged(v, w, Observed(v, Heard(s, step), step, vad.value), Observed(w, Heard(t, step), step, vad.value), step,
          k, vad.value);
    }
  }

  /** For memoryless engines, scoring only behind the voice-activity gate leaves the accepted events unchanged. */
  lemma {:induction false} PreGatingKeepsEvents(v: World, w: World, s: Pipe, t: Pipe, steps: seq<seq<int>>)
    requires SameButScoring(v, w) && Memoryless(w) && AlwaysUsable(w) && SameButFed(s, t) && |t.fed| == |w.engines|
    ensures var a, b := RunAll(StepFn(v), s, steps), RunAll(StepFn(w), t, steps);
            && a.events == b.events && a.state.Some? == b.state.Some?
            && (a.state.Some? ==> SameButFed(a.state.value, b.state.value) && |b.state.value.fed| == |w.engines|)
  {
    if steps != [] {
      var before, step := steps[..|steps| - 1], steps[|steps| - 1];
      PreGatingKeepsEvents(v, w, s, t, before);
      var b := RunAll(StepFn(w), t, before);
      if b.state.Some? {
        SameStep(v, w, RunAll(StepFn(v), s, before).state.value, b.state.value, step);
        FedKeepsLength(w, b.state.value, step);
      }
    }
  }

  lemma FedKeepsLength(w: World, s: Pipe, step: seq<int>)
    ensures StepFn(w)(s, step).Stepped? ==> |StepFn(w)(s, step).state.fed| == |s.fed|
  {
  }
}

/** The wake pipeline: re-framing, voice-activity window, scoring, gating and pre-roll. */
module Wake {
  import opened Wrappers
  import opened Int64
  import opened RingBuffer
  import opened Rows
  import opened Arith
  import opened Machine

  const STEP: nat := 1280
  const STEP_MS: nat := STEP * 1000 / RATE

  // ---------------------------------------------------------------- the gate

  datatype Thresholds = Thresholds(wake: real, vad: real)
  datatype Candidate = Candidate(wakeScore: real, effective: real, vadEnabled: bool, at: int)
  datatype Decision = BelowWake | RejectedLowVAD | Refractory | Accepted
  datatype GateState = GateState(thresholds: Thresholds, minInterval: int, lastAccepted: Option<int>)

  predicate Passes(g: GateState, c: Candidate) {
    && c.wakeScore >= g.thresholds.wake
    && (c.vadEnabled ==> c.effective >= g.thresholds.vad)
    && (g.lastAccepted.Some? ==> c.at - g.lastAccepted.value >= g.minInterval)
  }

  class Gate {
    var thresholds: Thresholds
    var minInterval: int
    var lastAccepted: Option<int>

    constructor (t: Thresholds, interval: int)
      ensures State() == GateState(t, interval, None)
    {
      thresholds, minInterval, lastAccepted := t, interval, None;
    }

    function State(): GateState
      reads this
    {
      GateState(thresholds, minInterval, lastAccepted)
    }

    method Decide(c: Candidate) returns (d: Decision)
      modifies this`lastAccepted
      ensures d.Accepted? <==> Passes(old(State()), c)
      ensures d == Verdict(old(State()), c)
      ensures d.BelowWake? <==> c.wakeScore < thresholds.wake
      ensures d.RejectedLowVAD? <==> c.wakeScore >= thresholds.wake && c.vadEnabled && c.effective < thresholds.vad
      ensures lastAccepted == if d.Accepted? then Some(c.at) else old(lastAccepted)
    {
      if c.wakeScore < thresholds.wake {
        return BelowWake;
      }
      if c.vadEnabled && c.effective < thresholds.vad {
        return RejectedLowVAD;
      }
      if lastAccepted.Some? && c.at - lastAccepted.value < minInterval {
        return Refractory;
      }
      lastAccepted := Some(c.at);
      return Accepted;
    }
  }

  /** The first rule a candidate fails names the decision. */
  function Verdict(g: GateState, c: Candidate): (d: Decision)
    ensures d.Accepted? <==> Passes(g, c)
  {
    if c.wakeScore < g.thresholds.wake then BelowWake
    else if c.vadEnabled && c.effective < g.thresholds.vad then RejectedLowVAD
    else if g.lastAccepted.Some? && c.at - g.lastAccepted.value < g.minInterval then Refractory
    else Accepted
  }

  // ---------------------------------------------------------------- the voice-activity window

  function Max(s: seq<real>): real
    requires s != []
  {
    if |s| == 1 then s[0] else
      var m, last := Max(s[..|s| - 1]), s[|s| - 1];
      if last > m then last else m
  }

  lemma {:induction false} MaxIsMaximum(s: seq<real>)
    requires s != []
    ensures Max(s) in s && forall i :: 0 <= i < |s| ==> s[i] <= Max(s)
  {
    if |s| > 1 {
      MaxIsMaximum(s[..|s| - 1]);
    }
  }

  /** Scores kept for a lookback: this step's and those of the whole steps that start inside it. */
  function Window(lookbackMs: nat): nat {
    lookbackMs / STEP_MS + 1
  }

  // ---------------------------------------------------------------- one step

  datatype Config = Config(threshold: real, vadEnabled: bool, vadThreshold: real, lookbackMs: nat,
                           minIntervalMs: nat, preRollMs: nat, alwaysScore: bool)

  datatype Event = Event(engine: nat, wakeScore: real, instant: real, effective: real,
                         lookbackMs: nat, position: int, preRoll: seq<int>, at: int)

  /**
   What the pipeline consults. A model answers from everything it has been shown, the newest last;
   no answer stands for an error. The clock is read per step and engine, the configuration per step.
   */
  datatype World = World(vad: seq<seq<int>> -> Option<real>, engines: seq<seq<seq<int>> -> Option<real>>,
                         clock: (nat, nat) -> int, configs: nat -> Config, dynamicConfig: bool)

  datatype Pipe = Pipe(shown: seq<seq<int>>, fed: seq<seq<seq<int>>>, ring: State, scores: seq<real>,
                       processed: nat, gate: GateState)

  /** A score is usable when it lies in the unit interval. */
  function Usable(score: Option<real>): Option<real> {
    if score.Some? && 0.0 <= score.value <= 1.0 then score else None
  }

  function Configured(dynamicConfig: bool, g: GateState, c: Config): GateState {
    if dynamicConfig then
      GateState(Thresholds(c.threshold, c.vadThreshold), Wrap(c.minIntervalMs * NS_PER_MS), g.lastAccepted) else g
  }

  predicate Measures(c: Config, g: GateState, effective: real) {
    c.alwaysScore || !c.vadEnabled || effective >= g.thresholds.vad
  }

  /** One step of a run: into the ring, then through the models and the gate. */
  function StepFn(w: World): (Pipe, seq<int>) -> Outcome<Pipe, Event> {
    (s, step) => Process(w, Heard(s, step), step)
  }

  /** Scores of the first n engines, if all of them are usable. */
  function ScoresOf(w: World, fed: seq<seq<seq<int>>>, step: seq<int>, n: nat): (r: Option<seq<real>>)
    requires n <= |w.engines| == |fed|
    ensures r.Some? ==> |r.value| == n
  {
    if n == 0 then Some([]) else
      var before := ScoresOf(w, fed, step, n - 1);
      if before.None? then None else
        var score := Usable(w.engines[n - 1](fed[n - 1] + [step]));
        if score.None? then None else Some(before.value + [score.value])
  }

  function CandidateOf(w: World, k: nat, c: Config, effective: real, scores: seq<real>, i: nat): Candidate
    requires i < |scores|
  {
    Candidate(scores[i], effective, c.vadEnabled, w.clock(k, i))
  }

  /** The gate after the first n candidates of step k. */
  function GateAfter(w: World, k: nat, c: Config, effective: real, scores: seq<real>, g: GateState, n: nat): GateState
    requires n <= |scores|
  {
    if n == 0 then g else
      var before := GateAfter(w, k, c, effective, scores, g, n - 1);
      var candidate := CandidateOf(w, k, c, effective, scores, n - 1);
      if Passes(before, candidate) then before.(lastAccepted := Some(candidate.at)) else before
  }

  /** What every event of a step carries besides its engine, score and time. */
  datatype Shared = Shared(instant: real, effective: real, lookbackMs: nat, position: int, preRoll: seq<int>)

  /** Events of the first n candidates of step k, in engine order. */
  function EventsOf(w: World, k: nat, c: Config, sh: Shared, scores: seq<real>, g: GateState, n: nat): seq<Event>
    requires n <= |scores|
  {
    if n == 0 then [] else
      var before := GateAfter(w, k, c, sh.effective, scores, g, n - 1);
      var candidate := CandidateOf(w, k, c, sh.effective, scores, n - 1);
      EventsOf(w, k, c, sh, scores, g, n - 1)
      + (if Passes(before, candidate) then
           [Event(n - 1, scores[n - 1], sh.instant, sh.effective, sh.lookbackMs, sh.position, sh.preRoll, candidate.at)]
         else [])
  }

  /** Samples of pre-roll a configuration asks for; negative when the product wraps. */
  function Wanted(c: Config): int {
    var duration := Wrap(c.preRollMs * NS_PER_MS);
    if duration <= 0 then 0 else SamplesIn(RATE, duration)
  }

  /** The last samples a configured pre-roll asks for, or none where the allocation would fail. */
  function PreRoll(contents: seq<int>, c: Config): Option<seq<int>> {
    if contents == [] then Some([])
    else if Wanted(c) < 0 then None
    else Some(LastN(contents, Wanted(c)))
  }

  /** Scoring and gating of a step the ring already holds. */
  function Process(w: World, s: Pipe, step: seq<int>): (o: Outcome<Pipe, Event>)
    ensures o.Stepped? ==> o.state.shown == s.shown + [step] && o.state.ring == s.ring
    ensures o.Stepped? ==> |o.state.fed| == |s.fed|
  {
    var c := w.configs(|s.shown|);
    var vad := Usable(w.vad(s.shown + [step]));
    if vad.None? then Failed else Judged(w, Observed(w, s, step, vad.value), step, |s.shown|, c, vad.value)
  }

  /** The pipeline once a step's voice-activity score is in its window. */
  function Observed(w: World, s: Pipe, step: seq<int>, vad: real): (t: Pipe)
    ensures t.scores != []
  {
    var c := w.configs(|s.shown|);
    Counted(s.(gate := Configured(w.dynamicConfig, s.gate, c)), c, step, vad)
  }

  function Counted(s: Pipe, c: Config, step: seq<int>, vad: real): (t: Pipe)
    ensures t.scores != []
  {
    s.(shown := s.shown + [step], scores := LastN(s.scores + [vad], Window(c.lookbackMs)),
        processed := s.processed + |step|)
  }

  /** Wake scoring and gating of step k, unless the voice-activity gate skips it. */
  function Judged(w: World, t: Pipe, step: seq<int>, k: nat, c: Config, instant: real): (o: Outcome<Pipe, Event>)
    requires t.scores != []
    ensures o.Stepped? ==> o.state == t.(fed := o.state.fed, gate := o.state.gate) && |o.state.fed| == |t.fed|
  {
    var effective := Max(t.scores);
    if !Measures(c, t.gate, effective) then Stepped(t, []) else
      var wake := if |t.fed| == |w.engines| then ScoresOf(w, t.fed, step, |w.engines|) else None;
      if wake.None? then Failed else
        var preRoll := PreRoll(t.ring.contents, c);
        var events := EventsOf(w, k, c, SharedOf(t, c, instant), wake.value, t.gate, |w.engines|);
        if preRoll.None? && events != [] then Failed else
          Stepped(t.(fed := Fed(t.fed, step), gate := GateAfter(w, k, c, effective, wake.value, t.gate, |w.engines|)),
              events)
  }

  function SharedOf(t: Pipe, c: Config, instant: real): Shared
    requires t.scores != []
  {
    Shared(instant, Max(t.scores), c.lookbackMs, DurationOf(t.processed, RATE), GetOr(PreRoll(t.ring.contents, c), []))
  }

  function Heard(s: Pipe, samples: seq<int>): Pipe {
    s.(ring := Apply(s.ring, Write(samples)))
  }

  function Fed(fed: seq<seq<seq<int>>>, step: seq<int>): (r: seq<seq<seq<int>>>)
    ensures |r| == |fed|
  {
    seq(|fed|, i requires 0 <= i < |fed| => fed[i] + [step])
  }

  // ---------------------------------------------------------------- the pipeline object

  class Pipeline {
    const world: World
    const ring: Ring
    const gate: Gate
    var step: seq<int>
    var shown: seq<seq<int>>
    var fed: seq<seq<seq<int>>>
    var scores: seq<real>
    var processed: nat

    ghost predicate Valid()
      reads this, ring, gate
    {
      |fed| == |world.engines| && ring.Valid() && ring.rate == RATE
    }

    ghost function Abs(): Pipe
      requires Valid()
      reads this, ring, ring.samples, gate
    {
      Pipe(shown, fed, RingBuffer.State(ring.Contents(), ring.Capacity()), scores, processed, gate.State())
    }

    constructor (world: World, ring: Ring, gate: Gate)
      requires ring.Valid() && ring.rate == RATE
      ensures Valid() && this.world == world && this.ring == ring && this.gate == gate && step == []
      ensures Abs() == Pipe([], seq(|world.engines|, _ => []), RingBuffer.State(ring.Contents(), ring.Capacity()), [],
        0, gate.State())
    {
      this.world, this.ring, this.gate := world, ring, gate;
      step, shown, scores, processed := [], [], [], 0;
      fed := seq(|world.engines|, _ => []);
    }

    /** Keeps the newest scores of the lookback and returns their maximum. */
    method ObserveVAD(score: real, lookbackMs: nat) returns (effective: real)
      modifies this`scores
      ensures scores == LastN(old(scores) + [score], Window(lookbackMs)) && effective == Max(scores)
    {
      var capacity := lookbackMs / STEP_MS + 1;
      scores := scores + [score];
      if |scores| > capacity {
        scores := scores[|scores| - capacity..];
      }
      effective := scores[0];
      for i := 1 to |scores|
        invariant effective == Max(scores[..i])
      {
        assert scores[..i + 1][..i] == scores[..i];
        if scores[i] > effective {
          effective := scores[i];
        }
      }
      assert scores[..|scores|] == scores;
    }

    /** Scores every engine; each one remembers what it was shown. */
    method ScoreEngines(input: seq<int>) returns (wake: Option<seq<real>>)
      requires |fed| == |world.engines|
      modifies this`fed
      ensures wake == ScoresOf(world, old(fed), input, |world.engines|)
      ensures |fed| == |world.engines| && (wake.Some? ==> fed == Fed(old(fed), input))
    {
      var found: seq<real> := [];
      ghost var fed0 := fed;
      for i := 0 to |world.engines|
        invariant FedTo(fed0, fed, input, i)
        invariant ScoresOf(world, fed0, input, i) == Some(found)
      {
        fed := fed[i := fed[i] + [input]];
        var score := Usable(world.engines[i](fed[i]));
        if score.None? {
          ScoresFail(world, fed0, input, i + 1, |world.engines|);
          return None;
        }
        found := found + [score.value];
      }
      return Some(found);
    }

    /** Puts every scored candidate to the gate, in engine order. */
    method Judge(k: nat, c: Config, sh: Shared, wake: seq<real>) returns (events: seq<Event>)
      modifies gate`lastAccepted
      ensures gate.State() == GateAfter(world, k, c, sh.effective, wake, old(gate.State()), |wake|)
      ensures events == EventsOf(world, k, c, sh, wake, old(gate.State()), |wake|)
    {
      events := [];
      for i := 0 to |wake|
        invariant gate.State() == GateAfter(world, k, c, sh.effective, wake, old(gate.State()), i)
        invariant events == EventsOf(world, k, c, sh, wake, old(gate.State()), i)
      {
        var d := gate.Decide(CandidateOf(world, k, c, sh.effective, wake, i));
        if d.Accepted? {
          events := events + [Event(i, wake[i], sh.instant, sh.effective, sh.lookbackMs, sh.position, sh.preRoll,
              world.clock(k, i))];
        }
      }
    }

    /** One step, already in the ring. */
    method ProcessStep(input: seq<int>) returns (ok: bool, events: seq<Event>)
      requires Valid()
      modifies this`shown, this`fed, this`scores, this`processed, gate
      ensures Valid()
      ensures Process(world, old(Abs()), input) == if ok then Stepped(Abs(), events) else Failed
      ensures !ok ==> events == []
    {
      var k := |shown|;
      var c := world.configs(k);
      Configure(c);
      var vad := Usable(world.vad(shown + [input]));
      if vad.None? {
        shown := shown + [input];
        return false, [];
      }
      ok, events := ObserveAndScore(k, c, input, vad.value);
    }

    method ObserveAndScore(k: nat, c: Config, input: seq<int>, instant: real) returns (ok: bool, events: seq<Event>)
      requires Valid()
      modifies this`shown, this`fed, this`scores, this`processed, gate`lastAccepted
      ensures Valid()
      ensures Judged(world, Counted(old(Abs()), c, input, instant), input, k, c, instant) == if ok then
        Stepped(Abs(), events) else Failed
      ensures !ok ==> events == []
    {
      var effective := Observe(c, input, instant);
      ok, events := ScoreAndGate(k, c, input, instant, effective);
    }

    /** A configuration change keeps the gate's last acceptance. */
    method Configure(c: Config)
      modifies gate
      ensures gate.State() == Configured(world.dynamicConfig, old(gate.State()), c)
    {
      if world.dynamicConfig {
        gate.thresholds := Thresholds(c.threshold, c.vadThreshold);
        gate.minInterval := Wrap(c.minIntervalMs * NS_PER_MS);
      }
    }

    method Observe(c: Config, input: seq<int>, instant: real) returns (effective: real)
      requires Valid()
      modifies this`shown, this`scores, this`processed
      ensures Valid() && Abs() == Counted(old(Abs()), c, input, instant)
      ensures scores != [] && effective == Max(scores)
    {
      shown := shown + [input];
      effective := ObserveVAD(instant, c.lookbackMs);
      processed := processed + |input|;
    }

    method ScoreAndGate(k: nat, c: Config, input: seq<int>, instant: real, effective: real)
        returns (ok: bool, events: seq<Event>)
      requires Valid() && scores != [] && effective == Max(scores)
      modifies this`fed, gate`lastAccepted
      ensures Valid()
      ensures Judged(world, old(Abs()), input, k, c, instant) == if ok then Stepped(Abs(), events) else Failed
      ensures !ok ==> events == []
    {
      if !(c.alwaysScore || !c.vadEnabled || effective >= gate.thresholds.vad) {
        return true, [];
      }
      var wake := ScoreEngines(input);
      if wake.None? {
        return false, [];
      }
      var found, preRoll := ring.Tail(Wrap(c.preRollMs * NS_PER_MS));
      events := Judge(k, c,
          Shared(instant, effective, c.lookbackMs, DurationOf(processed, RATE), if found then preRoll else []),
              wake.value);
      if !found && events != [] {
        return false, [];
      }
      ok := true;
    }

    /** Appends a captured frame and processes every whole step; what is left waits for the next frame. */
    method Frame(samples: seq<int>) returns (ok: bool, events: seq<Event>)
      requires Valid()
      modifies this, ring`start, ring`length, ring.samples, gate
      ensures Valid() && (ok ==> |step| < STEP)
      ensures ok ==> step == Rest(old(step) + samples)
      ensures RunAll(StepFn(world), old(Abs()), Split(old(step) + samples, STEP))
        == Ran(events, if ok then Some(Abs()) else None)
      ensures ring.samples == old(ring.samples)
    {
      step := step + samples;
      events := [];
      ghost var total, start, n := step, Abs(), 0;
      ghost var steps := Split(total, STEP);
      assert steps[..|steps|] == steps;
      while |step| >= STEP
        invariant Valid() && ring.samples == old(ring.samples)
        invariant 0 <= n <= |steps| && n * STEP <= |total| && step == total[n * STEP..]
        invariant RunAll(StepFn(world), start, steps[..n]) == Ran(events, Some(Abs()))
      {
        StepAt(total, n);
        RunNext(StepFn(world), start, steps, n);
        var more: seq<Event>;
        ok, more := WriteAndProcess(step[..STEP]);
        events := events + more;
        if !ok {
          RunStops(StepFn(world), start, steps, n + 1, |steps|);
          return;
        }
        step := step[STEP..];
        n := n + 1;
      }
      AllSteps(total, n);
      ok := true;
    }

    method WriteAndProcess(input: seq<int>) returns (ok: bool, events: seq<Event>)
      requires Valid()
      modifies this`shown, this`fed, this`scores, this`processed, ring`start, ring`length, ring.samples, gate
      ensures Valid() && ring.samples == old(ring.samples)
      ensures Process(world, Heard(old(Abs()), input), input) == if ok then Stepped(Abs(), events) else Failed
      ensures !ok ==> events == []
    {
      ring.Write(input);
      ok, events := ProcessStep(input);
    }
  }

  lemma AllSteps(total: seq<int>, n: nat)
    requires n * STEP <= |total| < n * STEP + STEP
    ensures n == |Split(total, STEP)| && total[n * STEP..] == Rest(total)
  {
    SplitCut(total, STEP, n);
    SplitLength(total, STEP);
  }

  /** The first n engines have been shown the step. */
  ghost predicate FedTo(fed0: seq<seq<seq<int>>>, fed: seq<seq<seq<int>>>, step: seq<int>, n: nat) {
    && |fed| == |fed0| && n <= |fed|
    && forall j {:trigger fed[j]} :: 0 <= j < |fed| ==> fed[j] == if j < n then fed0[j] + [step] else fed0[j]
  }

  lemma {:induction false} ScoresFail(w: World, fed: seq<seq<seq<int>>>, step: seq<int>, i: nat, n: nat)
    requires i <= n <= |w.engines| == |fed| && ScoresOf(w, fed, step, i).None?
    ensures ScoresOf(w, fed, step, n).None?
  {
    if i < n {
      ScoresFail(w, fed, step, i, n - 1);
    }
  }

  // ---------------------------------------------------------------- runs

  /** The n-th whole step of a buffer, and what is left after it. */
  lemma StepAt(total: seq<int>, n: nat)
    requires n * STEP + STEP <= |total|
    ensures n < |Split(total, STEP)| && Split(total, STEP)[n] == total[n * STEP..][..STEP]
    ensures total[n * STEP..][STEP..] == total[(n + 1) * STEP..]
  {
    SplitCut(total, STEP, n);
    var rest := total[n * STEP..];
    assert Split(rest, STEP) == [rest[..STEP]] + Split(rest[STEP..], STEP);
    assert Split(total, STEP)[n] == Split(total, STEP)[n..][0];
  }

  function Rest(samples: seq<int>): seq<int> {
    samples[(|samples| / STEP) * STEP..]
  }
}

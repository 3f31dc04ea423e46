/** Which candidates of a whole run become events: thresholds, refractory time and what the engines are asked. */
module WakeEvents {
  import opened Wrappers
  import opened Int64
  import opened RingBuffer
  import opened Rows
  import opened Machine
  import opened Wake
  import WakeRuns

  // ---------------------------------------------------------------- the rules

  datatype Limits = Limits(wake: real, vad: real, intervalNs: int)

  /** In force at step k: what the configuration says then, or what the gate was built with where there is no source. */
  function InForce(w: World, g: GateState, k: nat): Limits {
    if w.dynamicConfig then
      var c := w.configs(k);
      Limits(c.threshold, c.vadThreshold, Wrap(c.minIntervalMs * 1_000_000))
    else Limits(g.thresholds.wake, g.thresholds.vad, g.minInterval)
  }

  /** The time of the newest event, or of the acceptance the run began with. */
  function Newest(before: Option<int>, events: seq<Event>): Option<int> {
    if events == [] then before else Some(events[|events| - 1].at)
  }

  predicate LateEnough(before: Option<int>, at: int, interval: int) {
    before.Some? ==> at - before.value >= interval
  }

  /** The voice-activity scores the window holds at step k. */
  function Recent(w: World, steps: seq<seq<int>>, k: nat): (r: seq<real>)
    requires k < |steps|
    ensures r != []
  {
    LastN(WakeRuns.VadScores(w, steps[..k + 1]), WakeRuns.Kept(w, k + 1))
  }

  ghost predicate SomeReaches(scores: seq<real>, threshold: real) {
    exists i {:trigger scores[i]} :: 0 <= i < |scores| && scores[i] >= threshold
  }

  /** Whether the engines are asked about step k. */
  ghost predicate Measured(w: World, g: GateState, steps: seq<seq<int>>, k: nat)
    requires k < |steps|
  {
    var c := w.configs(k);
    c.alwaysScore || !c.vadEnabled || SomeReaches(Recent(w, steps, k), InForce(w, g, k).vad)
  }

  /** The steps the engines have been asked about. */
  ghost function Asked(w: World, g: GateState, steps: seq<seq<int>>): seq<seq<int>> {
    if steps == [] then [] else
      var k := |steps| - 1;
      Asked(w, g, steps[..k]) + (if Measured(w, g, steps, k) then [steps[k]] else [])
  }

  /** An engine's answer to step k. */
  ghost function Answer(w: World, g: GateState, steps: seq<seq<int>>, k: nat, engine: nat): Option<real>
    requires k < |steps| && engine < |w.engines|
  {
    w.engines[engine](Asked(w, g, steps[..k]) + [steps[k]])
  }

  predicate InUnit(score: Option<real>) {
    score.Some? && 0.0 <= score.value <= 1.0
  }

  // ---------------------------------------------------------------- one step

  /** The gate remembers the newest event's time. */
  lemma {:induction false} GateRemembers(w: World, k: nat, c: Config, sh: Shared, scores: seq<real>, g: GateState,
      n: nat)
    requires n <= |scores|
    ensures GateAfter(w, k, c, sh.effective, scores, g, n)
         == g.(lastAccepted := Newest(g.lastAccepted, EventsOf(w, k, c, sh, scores, g, n)))
  {
    if n > 0 {
      GateRemembers(w, k, c, sh, scores, g, n - 1);
    }
  }

  /** A candidate the gate takes. */
  predicate Takes(l: Limits, vadEnabled: bool, effective: real, score: real, before: Option<int>, at: int) {
    score >= l.wake && (vadEnabled ==> effective >= l.vad) && LateEnough(before, at, l.intervalNs)
  }

  function LimitsOf(g: GateState): Limits {
    Limits(g.thresholds.wake, g.thresholds.vad, g.minInterval)
  }

  /** The events of engine i among those from `from` on are at most one, at m, after those of the engines before it. */
  ghost predicate SplitAt(events: seq<Event>, from: nat, i: nat, m: nat) {
    && from <= m <= |events|
    && (forall j {:trigger events[j]} :: from <= j < m ==> events[j].engine < i)
    && (forall j {:trigger events[j]} :: m <= j < |events| ==> i <= events[j].engine)
    && (forall j {:trigger events[j]} :: m < j < |events| ==> i < events[j].engine)
  }

  predicate HasAt(events: seq<Event>, m: nat, i: nat) {
    m < |events| && events[m].engine == i
  }

  /** The candidate of engine i became an event exactly when it was taken after the first m events. */
  ghost predicate TakenAt(w: World, k: nat, c: Config, effective: real, score: real, g: GateState, i: nat,
      events: seq<Event>, m: nat) {
    && SplitAt(events, 0, i, m)
    && (HasAt(events, m, i) <==>
        Takes(LimitsOf(g), c.vadEnabled, effective, score, Newest(g.lastAccepted, events[..m]), w.clock(k, i)))
    && (HasAt(events, m, i) ==> events[m].wakeScore == score && events[m].at == w.clock(k, i))
  }

  /** Each engine's candidate is decided by the events of the engines before it. */
  lemma {:induction false} EngineEvent(w: World, k: nat, c: Config, sh: Shared, scores: seq<real>, g: GateState, n: nat,
      i: nat) returns (m: nat)
    requires i < n <= |scores|
    ensures TakenAt(w, k, c, sh.effective, scores[i], g, i, EventsOf(w, k, c, sh, scores, g, n), m)
  {
    var before, events := EventsOf(w, k, c, sh, scores, g, n - 1), EventsOf(w, k, c, sh, scores, g, n);
    if i == n - 1 {
      m := |before|;
      LastEngine(w, k, c, sh, scores, g, n);
    } else {
      m := EngineEvent(w, k, c, sh, scores, g, n - 1, i);
      LaterEvent(before, events, i, m, n - 1);
    }
  }

  lemma LastEngine(w: World, k: nat, c: Config, sh: Shared, scores: seq<real>, g: GateState, n: nat)
    requires 0 < n <= |scores|
    ensures TakenAt(w, k, c, sh.effective, scores[n - 1], g, n - 1, EventsOf(w, k, c, sh, scores, g, n),
              |EventsOf(w, k, c, sh, scores, g, n - 1)|)
  {
    var before, events := EventsOf(w, k, c, sh, scores, g, n - 1), EventsOf(w, k, c, sh, scores, g, n);
    GateRemembers(w, k, c, sh, scores, g, n - 1);
    EnginesBelow(w, k, c, sh, scores, g, n - 1);
    assert events[..|before|] == before;
  }

  /** An event of a later engine changes nothing about an earlier one. */
  lemma LaterEvent(before: seq<Event>, events: seq<Event>, i: nat, m: nat, engine: nat)
    requires SplitAt(before, 0, i, m) && i < engine
    requires before <= events && |events| <= |before| + 1 && (events != before ==> events[|before|].engine == engine)
    ensures SplitAt(events, 0, i, m) && events[..m] == before[..m] && (HasAt(events, m, i) <==> HasAt(before, m, i))
    ensures m < |before| ==> events[m] == before[m]
  {
    forall j {:trigger events[j]} | 0 <= j < |before| ensures events[j] == before[j] {
    }
  }

  ghost predicate Below(events: seq<Event>, n: nat) {
    forall j {:trigger events[j]} :: 0 <= j < |events| ==> events[j].engine < n
  }

  lemma {:induction false} EnginesBelow(w: World, k: nat, c: Config, sh: Shared, scores: seq<real>, g: GateState,
      n: nat)
    requires n <= |scores|
    ensures Below(EventsOf(w, k, c, sh, scores, g, n), n)
  {
    if n > 0 {
      EnginesBelow(w, k, c, sh, scores, g, n - 1);
      var before, events := EventsOf(w, k, c, sh, scores, g, n - 1), EventsOf(w, k, c, sh, scores, g, n);
      assert events == before || (exists e: Event :: e.engine == n - 1 && events == before + [e]);
    }
  }

  /** What the gate is set to once a step is configured. */
  lemma ObservedLimits(w: World, s: Pipe, step: seq<int>, vad: real)
    ensures var g := Observed(w, s, step, vad).gate;
            LimitsOf(g) == InForce(w, s.gate, |s.shown|) && g.lastAccepted == s.gate.lastAccepted
  {
  }

  /** After a step the gate stands at the limits in force and at the newest event. */
  lemma StepGate(w: World, s: Pipe, step: seq<int>)
    requires StepFn(w)(s, step).Stepped?
    ensures var o := StepFn(w)(s, step);
            && LimitsOf(o.state.gate) == InForce(w, s.gate, |s.shown|)
            && o.state.gate.lastAccepted == Newest(s.gate.lastAccepted, o.events)
            && o.state.shown == s.shown + [step]
  {
    var heard, k := Heard(s, step), |s.shown|;
    var vad := Usable(w.vad(s.shown + [step])).value;
    ObservedLimits(w, heard, step, vad);
    JudgedGate(w, Observed(w, heard, step, vad), step, k, w.configs(k), vad);
  }

  lemma JudgedGate(w: World, t: Pipe, step: seq<int>, k: nat, c: Config, instant: real)
    requires t.scores != [] && Judged(w, t, step, k, c, instant).Stepped?
    ensures var o := Judged(w, t, step, k, c, instant);
            o.state.gate == t.gate.(lastAccepted := Newest(t.gate.lastAccepted, o.events))
  {
    if Measures(c, t.gate, Max(t.scores)) {
      GateRemembers(w, k, c, SharedOf(t, c, instant), ScoresOf(w, t.fed, step, |w.engines|).value, t.gate, |w.engines|);
    }
  }

  // ---------------------------------------------------------------- whole runs

  /** Nothing has happened yet. */
  ghost predicate Fresh(w: World, s: Pipe) {
    && s.shown == [] && s.processed == 0 && s.scores == [] && s.ring.contents == []
    && |s.fed| == |w.engines| && forall i :: 0 <= i < |s.fed| ==> s.fed[i] == []
  }

  /** The state of a run and the events so far agree with the rules. */
  ghost predicate Agrees(w: World, s: Pipe, steps: seq<seq<int>>, t: Pipe, events: seq<Event>) {
    && t.shown == s.shown + steps
    && t.gate.lastAccepted == Newest(s.gate.lastAccepted, events)
    && (!w.dynamicConfig ==> LimitsOf(t.gate) == LimitsOf(s.gate))
  }

  lemma {:induction false} AlwaysAgrees(w: World, s: Pipe, steps: seq<seq<int>>)
    requires RunAll(StepFn(w), s, steps).state.Some?
    ensures var r := RunAll(StepFn(w), s, steps); Agrees(w, s, steps, r.state.value, r.events)
  {
    if steps != [] {
      var before, step := steps[..|steps| - 1], steps[|steps| - 1];
      AlwaysAgrees(w, s, before);
      var r := RunAll(StepFn(w), s, before);
      AgreesStep(w, s, before, r.state.value, r.events, step);
      assert before + [step] == steps;
    }
  }

  lemma AgreesStep(w: World, s: Pipe, steps: seq<seq<int>>, t: Pipe, events: seq<Event>, step: seq<int>)
    requires Agrees(w, s, steps, t, events) && StepFn(w)(t, step).Stepped?
    ensures var o := StepFn(w)(t, step); Agrees(w, s, steps + [step], o.state, events + o.events)
  {
    StepGate(w, t, step);
    assert t.shown + [step] == s.shown + (steps + [step]);
  }

  // ---------------------------------------------------------------- thresholds and refractory time

  /** The event of step k is one the limits allow after what was accepted before it. */
  ghost predicate Allowed(w: World, l: Limits, k: nat, before: Option<int>, e: Event) {
    e.at == w.clock(k, e.engine) && Takes(l, w.configs(k).vadEnabled, e.effective, e.wakeScore, before, e.at)
  }

  /** Every event is allowed after those before it, by the limits in force at its own step. */
  ghost predicate AllAllowed(w: World, g: GateState, events: seq<Event>, at: seq<nat>) {
    && |at| == |events|
    && forall j {:trigger at[j]} :: 0 <= j < |events| ==>
         Allowed(w, InForce(w, g, at[j]), at[j], Newest(g.lastAccepted, events[..j]), events[j])
  }

  lemma {:induction false} StepAllowed(w: World, k: nat, c: Config, sh: Shared, scores: seq<real>, g: GateState, n: nat,
      j: nat)
    requires n <= |scores| && c == w.configs(k) && j < |EventsOf(w, k, c, sh, scores, g, n)|
    ensures var events := EventsOf(w, k, c, sh, scores, g, n);
            Allowed(w, LimitsOf(g), k, Newest(g.lastAccepted, events[..j]), events[j])
  {
    var before, events := EventsOf(w, k, c, sh, scores, g, n - 1), EventsOf(w, k, c, sh, scores, g, n);
    GateRemembers(w, k, c, sh, scores, g, n - 1);
    EventsShareEffective(w, k, c, sh, scores, g, n, j);
    if j < |before| {
      StepAllowed(w, k, c, sh, scores, g, n - 1, j);
      assert events[..j] == before[..j];
    } else {
      assert events[..j] == before;
    }
  }

  lemma EventsShareEffective(w: World, k: nat, c: Config, sh: Shared, scores: seq<real>, g: GateState, n: nat, j: nat)
    requires n <= |scores| && j < |EventsOf(w, k, c, sh, scores, g, n)|
    ensures EventsOf(w, k, c, sh, scores, g, n)[j].effective == sh.effective
  {
    WakeRuns.EventsShare(w, k, c, sh, scores, g, n);
  }

  lemma NewestOfBoth(first: Option<int>, a: seq<Event>, b: seq<Event>, j: nat)
    requires j <= |b|
    ensures Newest(first, (a + b)[..|a| + j]) == Newest(Newest(first, a), b[..j])
  {
    assert (a + b)[..|a| + j] == a + b[..j];
  }

  lemma NewestAfter(first: Option<int>, a: seq<Event>, b: seq<Event>)
    ensures Newest(first, a + b) == Newest(Newest(first, a), b)
  {
  }

  lemma EventsAllowed(w: World, s: Pipe, step: seq<int>, j: nat)
    requires StepFn(w)(s, step).Stepped? && j < |StepFn(w)(s, step).events|
    ensures var events, k := StepFn(w)(s, step).events, |s.shown|;
            Allowed(w, InForce(w, s.gate, k), k, Newest(s.gate.lastAccepted, events[..j]), events[j])
  {
    var heard, k := Heard(s, step), |s.shown|;
    var vad := Usable(w.vad(s.shown + [step])).value;
    ObservedLimits(w, heard, step, vad);
    var t := Observed(w, heard, step, vad);
    StepAllowed(w, k, w.configs(k), SharedOf(t, w.configs(k), vad), ScoresOf(w, t.fed, step, |w.engines|).value, t.gate,
        |w.engines|, j);
  }

  /**
   Whatever the configuration source says at each step, every event of a run reaches the thresholds in
   force at its step and comes at least the interval in force there after the event before it.
   */
  lemma {:induction false} EventsKeepDistance(w: World, s: Pipe, steps: seq<seq<int>>) returns (at: seq<nat>)
    ensures AllAllowed(w, s.gate, RunAll(StepFn(w), s, steps).events, at)
    ensures forall j {:trigger at[j]} :: 0 <= j < |at| ==> |s.shown| <= at[j] < |s.shown| + |steps|
  {
    at := [];
    if steps != [] {
      var before, step := steps[..|steps| - 1], steps[|steps| - 1];
      at := EventsKeepDistance(w, s, before);
      var r := RunAll(StepFn(w), s, before);
      if r.state.Some? && StepFn(w)(r.state.value, step).Stepped? {
        AlwaysAgrees(w, s, before);
        var k := |s.shown| + |before|;
        var more := StepFn(w)(r.state.value, step).events;
        at := MoreAllowed(w, s.gate, r.events, at, more, k, r.state.value, step);
      }
    }
  }

  lemma MoreAllowed(w: World, g: GateState, events: seq<Event>, at: seq<nat>, more: seq<Event>, k: nat, t: Pipe,
      step: seq<int>) returns (all: seq<nat>)
    requires AllAllowed(w, g, events, at)
    requires StepFn(w)(t, step).Stepped? && more == StepFn(w)(t, step).events && k == |t.shown|
    requires t.gate.lastAccepted == Newest(g.lastAccepted, events)
    requires !w.dynamicConfig ==> LimitsOf(t.gate) == LimitsOf(g)
    ensures AllAllowed(w, g, events + more, all) && all == at + seq(|more|, _ => k)
  {
    all := at + seq(|more|, _ => k);
    forall j {:trigger all[j]} | 0 <= j < |events + more|
      ensures Allowed(w, InForce(w, g, all[j]), all[j], Newest(g.lastAccepted, (events + more)[..j]),
        (events + more)[j])
    {
      if j < |events| {
        assert (events + more)[..j] == events[..j] && all[j] == at[j];
      } else {
        NewestOfBoth(g.lastAccepted, events, more, j - |events|);
        EventsAllowed(w, t, step, j - |events|);
      }
    }
  }

  /** So two events of a run are never closer than the interval in force at the later one's step. */
  lemma ConsecutiveEvents(w: World, s: Pipe, steps: seq<seq<int>>, j: nat) returns (k: nat)
    requires j + 1 < |RunAll(StepFn(w), s, steps).events|
    ensures var events := RunAll(StepFn(w), s, steps).events;
            && events[j + 1].at == w.clock(k, events[j + 1].engine)
            && events[j + 1].wakeScore >= InForce(w, s.gate, k).wake
            && events[j + 1].at - events[j].at >= InForce(w, s.gate, k).intervalNs
  {
    var at := EventsKeepDistance(w, s, steps);
    var events := RunAll(StepFn(w), s, steps).events;
    k := at[j + 1];
    assert events[..j + 1][|events[..j + 1]| - 1] == events[j];
  }

  // ---------------------------------------------------------------- which candidates become events

  lemma ReachesMax(scores: seq<real>, threshold: real)
    requires scores != []
    ensures SomeReaches(scores, threshold) <==> Max(scores) >= threshold
  {
    MaxIsMaximum(scores);
  }

  lemma {:induction false} ScoreAt(w: World, fed: seq<seq<seq<int>>>, step: seq<int>, n: nat, i: nat)
    requires i < n <= |w.engines| == |fed| && ScoresOf(w, fed, step, n).Some?
    ensures Usable(w.engines[i](fed[i] + [step])) == Some(ScoresOf(w, fed, step, n).value[i])
  {
    if i < n - 1 {
      ScoreAt(w, fed, step, n - 1, i);
    }
  }

  /** The engines have been asked about the measured steps and nothing else, and the window is the recent scores. */
  ghost predicate Informed(w: World, s: Pipe, steps: seq<seq<int>>, t: Pipe) {
    && t.shown == steps
    && WakeRuns.Consistent(w, t, 0)
    && AllFed(t.fed, Asked(w, s.gate, steps), |w.engines|)
  }

  lemma {:induction false} AlwaysInformed(w: World, s: Pipe, steps: seq<seq<int>>)
    requires Fresh(w, s) && RunAll(StepFn(w), s, steps).state.Some?
    ensures Informed(w, s, steps, RunAll(StepFn(w), s, steps).state.value)
  {
    if steps == [] {
      FreshIsInformed(w, s);
    } else {
      AlwaysInformed(w, s, steps[..|steps| - 1]);
      InformedNext(w, s, steps, RunAll(StepFn(w), s, steps[..|steps| - 1]).state.value);
    }
  }

  lemma InformedNext(w: World, s: Pipe, steps: seq<seq<int>>, t: Pipe)
    requires steps != [] && RunAll(StepFn(w), s, steps[..|steps| - 1]).state == Some(t)
    requires RunAll(StepFn(w), s, steps).state.Some? && Informed(w, s, steps[..|steps| - 1], t)
    ensures Informed(w, s, steps, RunAll(StepFn(w), s, steps).state.value)
  {
    AlwaysAgrees(w, s, steps[..|steps| - 1]);
    var u := LastState(StepFn(w), s, steps, t);
    InformedLast(w, s, steps, t, u);
  }

  /** The state a run ends in is the one its last input led to. */
  lemma LastState<S, I, E>(f: (S, I) -> Outcome<S, E>, s: S, inputs: seq<I>, t: S) returns (u: S)
    requires inputs != [] && RunAll(f, s, inputs[..|inputs| - 1]).state == Some(t) && RunAll(f, s, inputs).state.Some?
    ensures f(t, inputs[|inputs| - 1]).Stepped? && u == f(t, inputs[|inputs| - 1]).state
    ensures RunAll(f, s, inputs).state == Some(u)
    ensures RunAll(f, s, inputs).events
      == RunAll(f, s, inputs[..|inputs| - 1]).events + f(t, inputs[|inputs| - 1]).events
  {
    u := RunAll(f, s, inputs).state.value;
  }

  lemma InformedLast(w: World, s: Pipe, steps: seq<seq<int>>, t: Pipe, u: Pipe)
    requires steps != [] && Informed(w, s, steps[..|steps| - 1], t)
    requires StepFn(w)(t, steps[|steps| - 1]).Stepped? && u == StepFn(w)(t, steps[|steps| - 1]).state
    requires !w.dynamicConfig ==> LimitsOf(t.gate) == LimitsOf(s.gate)
    ensures Informed(w, s, steps, u)
  {
    assert steps[..|steps| - 1] + [steps[|steps| - 1]] == steps;
    InformedStep(w, s, steps[..|steps| - 1], t, steps[|steps| - 1]);
  }

  lemma FreshIsInformed(w: World, s: Pipe)
    requires Fresh(w, s)
    ensures Informed(w, s, [], s)
  {
  }

  /** At the newest step the window holds the recent scores, and the gate's rule for asking is `Measured`. */
  lemma WindowAtStep(w: World, s: Pipe, steps: seq<seq<int>>, t: Pipe, step: seq<int>)
    requires Informed(w, s, steps, t) && w.vad(steps + [step]).Some?
    requires !w.dynamicConfig ==> LimitsOf(t.gate) == LimitsOf(s.gate)
    ensures var o, k := Observed(w, Heard(t, step), step, w.vad(steps + [step]).value), |steps|;
            && o.scores == Recent(w, steps + [step], k) && LimitsOf(o.gate) == InForce(w, s.gate, k)
            && o.fed == t.fed
            && (Measures(w.configs(k), o.gate, Max(o.scores)) <==> Measured(w, s.gate, steps + [step], k))
  {
    var vad := w.vad(steps + [step]).value;
    WakeRuns.ObservedScores(w, t, step);
    ObservedLimits(w, Heard(t, step), step, vad);
    assert (steps + [step])[..|steps| + 1] == steps + [step];
    ReachesMax(Recent(w, steps + [step], |steps|), InForce(w, s.gate, |steps|).vad);
  }

  lemma InformedStep(w: World, s: Pipe, steps: seq<seq<int>>, t: Pipe, step: seq<int>)
    requires Informed(w, s, steps, t) && StepFn(w)(t, step).Stepped?
    requires !w.dynamicConfig ==> LimitsOf(t.gate) == LimitsOf(s.gate)
    ensures Informed(w, s, steps + [step], StepFn(w)(t, step).state)
  {
    WakeRuns.ConsistentStep(w, t, step, 0);
    StepGate(w, t, step);
    FedStep(w, s, steps, t, step);
  }

  ghost predicate AllFed(fed: seq<seq<seq<int>>>, asked: seq<seq<int>>, n: nat) {
    |fed| == n && forall i {:trigger fed[i]} :: 0 <= i < |fed| ==> fed[i] == asked
  }

  lemma FedStep(w: World, s: Pipe, steps: seq<seq<int>>, t: Pipe, step: seq<int>)
    requires Informed(w, s, steps, t) && StepFn(w)(t, step).Stepped?
    requires !w.dynamicConfig ==> LimitsOf(t.gate) == LimitsOf(s.gate)
    ensures AllFed(StepFn(w)(t, step).state.fed, Asked(w, s.gate, steps + [step]), |w.engines|)
  {
    WakeRuns.SteppedState(w, Heard(t, step), step);
    WindowAtStep(w, s, steps, t, step);
    AskedNext(w, s.gate, steps, step);
    var vad := w.vad(steps + [step]).value;
    var o := Observed(w, Heard(t, step), step, vad);
    FedByJudging(w, o, step, |steps|, w.configs(|steps|), vad);
    FedNext(o.fed, Asked(w, s.gate, steps), step, |w.engines|);
  }

  lemma FedNext(fed: seq<seq<seq<int>>>, asked: seq<seq<int>>, step: seq<int>, n: nat)
    requires AllFed(fed, asked, n)
    ensures AllFed(Fed(fed, step), asked + [step], n) && AllFed(fed, asked + [], n)
  {
    assert asked + [] == asked;
  }

  lemma AskedNext(w: World, g: GateState, steps: seq<seq<int>>, step: seq<int>)
    ensures Asked(w, g, steps + [step])
         == Asked(w, g, steps) + (if Measured(w, g, steps + [step], |steps|) then [step] else [])
  {
    assert (steps + [step])[..|steps|] == steps;
  }

  lemma FedByJudging(w: World, t: Pipe, step: seq<int>, k: nat, c: Config, instant: real)
    requires t.scores != [] && Judged(w, t, step, k, c, instant).Stepped?
    ensures Judged(w, t, step, k, c, instant).state.fed
         == if Measures(c, t.gate, Max(t.scores)) then Fed(t.fed, step) else t.fed
  {
  }

  /** What makes the candidate of engine i an event at the newest step, after the given events. */
  ghost predicate Becomes(w: World, g: GateState, steps: seq<seq<int>>, i: nat, events: seq<Event>)
    requires steps != [] && i < |w.engines|
  {
    var k := |steps| - 1;
    var l, answer := InForce(w, g, k), Answer(w, g, steps, k, i);
    && Measured(w, g, steps, k)
    && InUnit(answer) && answer.value >= l.wake
    && (w.configs(k).vadEnabled ==> SomeReaches(Recent(w, steps, k), l.vad))
    && LateEnough(Newest(g.lastAccepted, events), w.clock(k, i), l.intervalNs)
  }

  /** The gate's part of a step, in terms of the state it judges. */
  lemma JudgedDecides(w: World, t: Pipe, step: seq<int>, k: nat, c: Config, instant: real, i: nat) returns (m: nat)
    requires t.scores != [] && |t.fed| == |w.engines| && i < |w.engines|
    requires Judged(w, t, step, k, c, instant).Stepped?
    ensures var more, answer := Judged(w, t, step, k, c, instant).events, Usable(w.engines[i](t.fed[i] + [step]));
            && SplitAt(more, 0, i, m)
            && (HasAt(more, m, i) <==>
                Measures(c, t.gate, Max(t.scores)) && answer.Some?
                && Takes(LimitsOf(t.gate), c.vadEnabled, Max(t.scores), answer.value,
                         Newest(t.gate.lastAccepted, more[..m]), w.clock(k, i)))
            && (HasAt(more, m, i) ==> Some(more[m].wakeScore) == answer)
  {
    if Measures(c, t.gate, Max(t.scores)) {
      ScoreAt(w, t.fed, step, |w.engines|, i);
      m := EngineEvent(w, k, c, SharedOf(t, c, instant), ScoresOf(w, t.fed, step, |w.engines|).value, t.gate,
        |w.engines|, i);
    } else {
      m := 0;
    }
  }

  /** The rule for the newest step, in terms of the state the gate judges. */
  lemma BecomesIff(w: World, s: Pipe, steps: seq<seq<int>>, t: Pipe, step: seq<int>, o: Pipe, events: seq<Event>,
      i: nat)
    requires Informed(w, s, steps, t) && i < |w.engines| && o.scores != []
    requires o.scores == Recent(w, steps + [step], |steps|) && LimitsOf(o.gate) == InForce(w, s.gate, |steps|)
    requires Measures(w.configs(|steps|), o.gate, Max(o.scores)) <==> Measured(w, s.gate, steps + [step], |steps|)
    ensures var answer, k := Usable(w.engines[i](t.fed[i] + [step])), |steps|;
            && (answer.Some? ==> Answer(w, s.gate, steps + [step], k, i) == answer)
            && (Becomes(w, s.gate, steps + [step], i, events) <==>
                Measures(w.configs(k), o.gate, Max(o.scores)) && answer.Some?
                && Takes(LimitsOf(o.gate), w.configs(k).vadEnabled, Max(o.scores), answer.value,
                         Newest(s.gate.lastAccepted, events), w.clock(k, i)))
  {
    assert (steps + [step])[..|steps|] == steps;
    ReachesMax(o.scores, o.gate.thresholds.vad);
  }

  /** What the gate decides about the newest step of a run that has come this far. */
  lemma StepDecides(w: World, s: Pipe, steps: seq<seq<int>>, t: Pipe, step: seq<int>, events: seq<Event>, i: nat)
      returns (m: nat)
    requires Informed(w, s, steps, t) && Agrees(w, s, steps, t, events) && i < |w.engines|
    requires StepFn(w)(t, step).Stepped?
    ensures var more := StepFn(w)(t, step).events;
            && SplitAt(more, 0, i, m)
            && (HasAt(more, m, i) <==> Becomes(w, s.gate, steps + [step], i, events + more[..m]))
            && (HasAt(more, m, i) ==> Some(more[m].wakeScore) == Answer(w, s.gate, steps + [step], |steps|, i))
  {
    var k, vad := |steps|, w.vad(steps + [step]).value;
    WindowAtStep(w, s, steps, t, step);
    var o := Observed(w, Heard(t, step), step, vad);
    m := JudgedDecides(w, o, step, k, w.configs(k), vad, i);
    var more := StepFn(w)(t, step).events;
    ObservedLimits(w, Heard(t, step), step, vad);
    BecomesIff(w, s, steps, t, step, o, events + more[..m], i);
    NewestAfter(s.gate.lastAccepted, events, more[..m]);
  }

  /** The candidate of engine i at the newest step, among the events after the first `from`, was decided by the rule. */
  ghost predicate Decided(w: World, g: GateState, steps: seq<seq<int>>, i: nat, all: seq<Event>, from: nat, m: nat)
    requires steps != [] && i < |w.engines|
  {
    && SplitAt(all, from, i, m)
    && (HasAt(all, m, i) <==> Becomes(w, g, steps, i, all[..m]))
    && (HasAt(all, m, i) ==> Some(all[m].wakeScore) == Answer(w, g, steps, |steps| - 1, i))
  }

  /**
   On every run from the beginning, of any length: the candidate of engine i at the newest step becomes an
   event exactly when the step is measured, the engine's answer and the recent voice-activity scores reach
   the limits in force there, and the newest event before it is far enough away. Engines are answered in order.
   */
  lemma CandidateDecided(w: World, s: Pipe, steps: seq<seq<int>>, i: nat) returns (m: nat)
    requires Fresh(w, s) && steps != [] && i < |w.engines| && RunAll(StepFn(w), s, steps).state.Some?
    ensures var before, all := RunAll(StepFn(w), s, steps[..|steps| - 1]).events, RunAll(StepFn(w), s, steps).events;
            && |before| <= |all| && all[..|before|] == before
            && Decided(w, s.gate, steps, i, all, |before|, m)
  {
    var prefix := steps[..|steps| - 1];
    assert prefix + [steps[|steps| - 1]] == steps;
    AlwaysInformed(w, s, prefix);
    AlwaysAgrees(w, s, prefix);
    var t := RunAll(StepFn(w), s, prefix).state.value;
    var u := LastState(StepFn(w), s, steps, t);
    m := LastDecided(w, s, prefix, t, steps[|steps| - 1], RunAll(StepFn(w), s, prefix).events,
      StepFn(w)(t, steps[|steps| - 1]).events, i);
  }

  lemma LastDecided(w: World, s: Pipe, steps: seq<seq<int>>, t: Pipe, step: seq<int>, events: seq<Event>,
      more: seq<Event>, i: nat) returns (m: nat)
    requires Informed(w, s, steps, t) && Agrees(w, s, steps, t, events) && i < |w.engines|
    requires StepFn(w)(t, step).Stepped? && more == StepFn(w)(t, step).events
    ensures Decided(w, s.gate, steps + [step], i, events + more, |events|, m)
  {
    var n := StepDecides(w, s, steps, t, step, events, i);
    m := |events| + n;
    assert (events + more)[..m] == events + more[..n];
    SplitShift(events, more, i, n);
  }

  lemma SplitShift(events: seq<Event>, more: seq<Event>, i: nat, n: nat)
    requires SplitAt(more, 0, i, n)
    ensures SplitAt(events + more, |events|, i, |events| + n)
  {
    var all := events + more;
    forall j {:trigger all[j]} | |events| <= j < |all| ensures all[j] == more[j - |events|] {
    }
  }

  // ---------------------------------------------------------------- when a run stops

  lemma {:induction false} SomeTaken(w: World, k: nat, c: Config, sh: Shared, scores: seq<real>, g: GateState, n: nat)
    requires n <= |scores|
    ensures EventsOf(w, k, c, sh, scores, g, n) != [] <==>
            exists i: nat {:trigger scores[i]} :: i < n
              && Takes(LimitsOf(g), c.vadEnabled, sh.effective, scores[i], g.lastAccepted, w.clock(k, i))
  {
    if n > 0 {
      SomeTaken(w, k, c, sh, scores, g, n - 1);
      GateRemembers(w, k, c, sh, scores, g, n - 1);
      assert scores[n - 1] == scores[n - 1];
    }
  }

  /** Engine i's answer when it is shown one more step. */
  function Next(w: World, fed: seq<seq<seq<int>>>, step: seq<int>, i: nat): Option<real>
    requires i < |w.engines| == |fed|
  {
    w.engines[i](fed[i] + [step])
  }

  lemma {:induction false} AllAnswer(w: World, fed: seq<seq<seq<int>>>, step: seq<int>, n: nat)
    requires n <= |w.engines| == |fed|
    ensures ScoresOf(w, fed, step, n).Some? <==>
            forall i: nat {:trigger Next(w, fed, step, i)} :: i < n ==> InUnit(Next(w, fed, step, i))
  {
    if n > 0 {
      AllAnswer(w, fed, step, n - 1);
      assert Usable(Next(w, fed, step, n - 1)).Some? <==> InUnit(Next(w, fed, step, n - 1));
    }
  }

  ghost predicate SomeSilent(w: World, t: Pipe, step: seq<int>)
    requires |t.fed| == |w.engines|
  {
    exists i: nat {:trigger Next(w, t.fed, step, i)} :: i < |w.engines| && !InUnit(Next(w, t.fed, step, i))
  }

  predicate WouldTake(w: World, t: Pipe, step: seq<int>, k: nat, i: nat)
    requires |t.fed| == |w.engines| && t.scores != [] && i < |w.engines|
  {
    var answer := Next(w, t.fed, step, i);
    && InUnit(answer)
    && Takes(LimitsOf(t.gate), w.configs(k).vadEnabled, Max(t.scores), answer.value, t.gate.lastAccepted, w.clock(k, i))
  }

  ghost predicate SomeTakes(w: World, t: Pipe, step: seq<int>, k: nat)
    requires |t.fed| == |w.engines| && t.scores != []
  {
    exists i: nat {:trigger Next(w, t.fed, step, i)} :: i < |w.engines| && WouldTake(w, t, step, k, i)
  }

  lemma TakenIff(w: World, t: Pipe, step: seq<int>, k: nat, sh: Shared, scores: seq<real>)
    requires |t.fed| == |w.engines| == |scores| && t.scores != [] && sh.effective == Max(t.scores)
    requires forall i: nat {:trigger Next(w, t.fed, step, i)} :: i < |scores| ==>
               Next(w, t.fed, step, i) == Some(scores[i]) && InUnit(Some(scores[i]))
    ensures EventsOf(w, k, w.configs(k), sh, scores, t.gate, |scores|) == [] <==> !SomeTakes(w, t, step, k)
  {
    SomeTaken(w, k, w.configs(k), sh, scores, t.gate, |scores|);
    forall i: nat | i < |scores|
      ensures WouldTake(w, t, step, k, i) <==>
              Takes(LimitsOf(t.gate), w.configs(k).vadEnabled, sh.effective, scores[i], t.gate.lastAccepted,
                  w.clock(k, i))
    {
      assert Next(w, t.fed, step, i) == Some(scores[i]);
    }
  }

  lemma JudgedFails(w: World, t: Pipe, step: seq<int>, k: nat, instant: real)
    requires |t.fed| == |w.engines| && t.scores != []
    ensures Judged(w, t, step, k, w.configs(k), instant).Failed? <==>
            Measures(w.configs(k), t.gate, Max(t.scores))
            && (SomeSilent(w, t, step) || (SomeTakes(w, t, step, k) && PreRoll(t.ring.contents, w.configs(k)).None?))
  {
    AllAnswer(w, t.fed, step, |w.engines|);
    if ScoresOf(w, t.fed, step, |w.engines|).Some? {
      var scores := ScoresOf(w, t.fed, step, |w.engines|).value;
      forall i: nat | i < |scores|
        ensures Next(w, t.fed, step, i) == Some(scores[i]) && InUnit(Some(scores[i]))
      {
        ScoreAt(w, t.fed, step, |w.engines|, i);
      }
      TakenIff(w, t, step, k, SharedOf(t, w.configs(k), instant), scores);
    }
  }

  /** Some engine's answer to the newest step is an error or no score. */
  ghost predicate Unanswered(w: World, g: GateState, steps: seq<seq<int>>)
    requires steps != []
  {
    exists i: nat {:trigger Answer(w, g, steps, |steps| - 1, i)} ::
      i < |w.engines| && !InUnit(Answer(w, g, steps, |steps| - 1, i))
  }

  ghost predicate SomeBecomes(w: World, g: GateState, steps: seq<seq<int>>, events: seq<Event>)
    requires steps != []
  {
    exists i: nat {:trigger Becomes(w, g, steps, i, events)} :: i < |w.engines| && Becomes(w, g, steps, i, events)
  }

  /** The state the gate judges at the newest step, in terms of the run. */
  ghost predicate Stands(w: World, g: GateState, steps: seq<seq<int>>, step: seq<int>, o: Pipe, events: seq<Event>) {
    var k, now := |steps|, steps + [step];
    && AllFed(o.fed, Asked(w, g, steps), |w.engines|)
    && o.scores == Recent(w, now, k) && LimitsOf(o.gate) == InForce(w, g, k)
    && (Measures(w.configs(k), o.gate, Max(o.scores)) <==> Measured(w, g, now, k))
    && o.gate.lastAccepted == Newest(g.lastAccepted, events)
  }

  lemma NextIsAnswer(w: World, g: GateState, steps: seq<seq<int>>, step: seq<int>, o: Pipe, events: seq<Event>, i: nat)
    requires Stands(w, g, steps, step, o, events) && i < |w.engines|
    ensures Next(w, o.fed, step, i) == Answer(w, g, steps + [step], |steps|, i)
    ensures Becomes(w, g, steps + [step], i, events) <==>
            Measured(w, g, steps + [step], |steps|) && WouldTake(w, o, step, |steps|, i)
  {
    assert (steps + [step])[..|steps|] == steps;
    ReachesMax(o.scores, o.gate.thresholds.vad);
  }

  lemma StandingFails(w: World, g: GateState, steps: seq<seq<int>>, step: seq<int>, o: Pipe, events: seq<Event>,
      instant: real)
    requires Stands(w, g, steps, step, o, events) && o.scores != []
    ensures var k, now := |steps|, steps + [step];
            Judged(w, o, step, k, w.configs(k), instant).Failed? <==>
            (Measured(w, g, now, k) && Unanswered(w, g, now))
            || (SomeBecomes(w, g, now, events) && PreRoll(o.ring.contents, w.configs(k)).None?)
  {
    JudgedFails(w, o, step, |steps|, instant);
    forall i: nat | i < |w.engines|
      ensures Next(w, o.fed, step, i) == Answer(w, g, steps + [step], |steps|, i)
      ensures Becomes(w, g, steps + [step], i, events) <==>
              Measured(w, g, steps + [step], |steps|) && WouldTake(w, o, step, |steps|, i)
    {
      NextIsAnswer(w, g, steps, step, o, events, i);
    }
  }

  /**
   A run from the beginning stops at its newest step exactly when the voice-activity answer is an error or no
   score, when the step is measured and an engine's answer is one, or when a candidate becomes an event and
   the duration of the pre-roll has wrapped to a negative one while the ring holds samples.
   */
  lemma StopsIff(w: World, s: Pipe, steps: seq<seq<int>>, step: seq<int>, t: Pipe, events: seq<Event>)
    requires Fresh(w, s) && RunAll(StepFn(w), s, steps) == Ran(events, Some(t))
    ensures var k, now := |steps|, steps + [step];
            RunAll(StepFn(w), s, now).state.None? <==>
            !InUnit(w.vad(now))
            || (Measured(w, s.gate, now, k) && Unanswered(w, s.gate, now))
            || (SomeBecomes(w, s.gate, now, events) && Wanted(w.configs(k)) < 0 && Heard(t, step).ring.contents != [])
  {
    AlwaysInformed(w, s, steps);
    AlwaysAgrees(w, s, steps);
    StepFails(w, s, steps, t, step, events);
    LastFails(StepFn(w), s, steps, step, t);
    NoRoom(Heard(t, step).ring.contents, w.configs(|steps|));
  }

  lemma LastFails<S, I, E>(f: (S, I) -> Outcome<S, E>, s: S, inputs: seq<I>, input: I, t: S)
    requires RunAll(f, s, inputs).state == Some(t)
    ensures RunAll(f, s, inputs + [input]).state.None? <==> f(t, input).Failed?
  {
    assert (inputs + [input])[..|inputs|] == inputs;
  }

  lemma NoRoom(contents: seq<int>, c: Config)
    ensures PreRoll(contents, c).None? <==> Wanted(c) < 0 && contents != []
  {
  }

  lemma StepFails(w: World, s: Pipe, steps: seq<seq<int>>, t: Pipe, step: seq<int>, events: seq<Event>)
    requires Informed(w, s, steps, t) && Agrees(w, s, steps, t, events)
    ensures var k, now := |steps|, steps + [step];
            StepFn(w)(t, step).Failed? <==>
            !InUnit(w.vad(now))
            || (Measured(w, s.gate, now, k) && Unanswered(w, s.gate, now))
            || (SomeBecomes(w, s.gate, now, events) && PreRoll(Heard(t, step).ring.contents, w.configs(k)).None?)
  {
    if InUnit(w.vad(steps + [step])) {
      var vad := w.vad(steps + [step]).value;
      WindowAtStep(w, s, steps, t, step);
      ObservedLimits(w, Heard(t, step), step, vad);
      StandingFails(w, s.gate, steps, step, Observed(w, Heard(t, step), step, vad), events, vad);
    }
  }
}

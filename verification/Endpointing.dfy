/** Endpoint detection: the online controller and the declarative rule it implements. */
module Endpointing {
  import opened Wrappers
  import opened Int64

  datatype Config = Config(speechThreshold: real, speechOnsetMs: int, trailingSilenceMs: int, noSpeechTimeoutMs: int,
      maxTurnMs: int)
  datatype Reason = Timeout | Endpointed | NoSpeech | EOF
  datatype State = Idle | WaitingForSpeech | InSpeech | Completed

  function Ns(ms: int): int {
    Wrap(ms * NS_PER_MS)
  }

  function FrameTime(frame: seq<int>): int {
    DurationOf(|frame|, RATE)
  }

  /** The level detector: a score from everything it has heard, the newest frame last. */
  type Detector = seq<seq<int>> -> real

  /** The controller's fields; heard is what its detector has been shown. */
  datatype Ctl = Ctl(heard: seq<seq<int>>, config: Config, pending: Option<Config>, state: State, turn: Config,
                     elapsed: int, onset: int, silence: int)
  {
    predicate InTurn() {
      state.WaitingForSpeech? || state.InSpeech?
    }
  }

  // ---------------------------------------------------------------- the controller as functions

  function Staged(c: Ctl, config: Config): Ctl {
    if c.InTurn() then c.(pending := Some(config)) else c.(config := config, pending := None)
  }

  function Started(c: Ctl, preRoll: nat): Ctl {
    c.(state := WaitingForSpeech, turn := c.config, elapsed := DurationOf(preRoll, RATE), onset := 0, silence := 0)
  }

  function Finished(c: Ctl): Ctl {
    var d := if c.InTurn() then c.(state := Completed) else c;
    if d.pending.Some? then d.(config := d.pending.value, pending := None) else d
  }

  /** The controller after a frame that does not end the turn by timeout. */
  function Counted(c: Ctl, frame: seq<int>, speech: bool): Ctl {
    var d := FrameTime(frame);
    if speech then
      if c.state.WaitingForSpeech? then
        var onset := c.onset + d;
        if onset >= Ns(c.turn.speechOnsetMs) then c.(onset := onset, state := InSpeech, silence := 0)
          else c.(onset := onset)
      else c.(silence := 0)
    else if c.state.WaitingForSpeech? then c.(onset := 0)
    else c.(silence := c.silence + d)
  }

  function Observed(score: Detector, c0: Ctl, frame: seq<int>): (Ctl, Option<Reason>) {
    var c := c0.(heard := c0.heard + [frame]);
    if !c.InTurn() then (c, None) else
      var timed := c.(elapsed := c.elapsed + FrameTime(frame));
      if timed.elapsed >= Ns(c.turn.maxTurnMs) then (Finished(timed), Some(Timeout)) else
        var speech := score(c.heard) >= c.turn.speechThreshold;
        var next := Counted(timed, frame, speech);
        if !speech && next.state.InSpeech? && next.silence >= Ns(c.turn.trailingSilenceMs) then
          (Finished(next), Some(Endpointed))
        else if next.state.WaitingForSpeech? && next.elapsed >= Ns(c.turn.noSpeechTimeoutMs) then
          (Finished(next), Some(NoSpeech))
        else (next, None)
  }

  // ---------------------------------------------------------------- the controller object

  class Controller {
    const score: Detector
    var heard: seq<seq<int>>
    var config: Config
    var pending: Option<Config>
    var state: State
    var turn: Config
    var elapsed: int
    var onset: int
    var silence: int

    constructor (config: Config, score: Detector)
      ensures this.score == score
      ensures Abs() == Ctl([], config, None, Idle, config, 0, 0, 0)
    {
      this.score, heard, this.config, pending, state, turn := score, [], config, None, Idle, config;
      elapsed, onset, silence := 0, 0, 0;
    }

    function Abs(): Ctl
      reads this
    {
      Ctl(heard, config, pending, state, turn, elapsed, onset, silence)
    }

    method StageValidatedConfig(value: Config) returns (held: bool)
      modifies this
      ensures held <==> old(Abs()).InTurn()
      ensures Abs() == Staged(old(Abs()), value)
    {
      if state.Idle? || state.Completed? {
        config := value;
        pending := None;
        return false;
      }
      pending := Some(value);
      return true;
    }

    method Start(preRollSamples: int) returns (ok: bool)
      modifies this
      ensures ok <==> preRollSamples >= 0 && !old(Abs()).InTurn()
      ensures Abs() == if ok then Started(old(Abs()), preRollSamples) else old(Abs())
    {
      if preRollSamples < 0 || !(state.Idle? || state.Completed?) {
        return false;
      }
      state, turn := WaitingForSpeech, config;
      elapsed := DurationOf(preRollSamples, RATE);
      onset, silence := 0, 0;
      return true;
    }

    method Observe(samples: seq<int>) returns (reason: Option<Reason>)
      modifies this
      ensures (Abs(), reason) == Observed(score, old(Abs()), samples)
    {
      heard := heard + [samples];
      if !(state.WaitingForSpeech? || state.InSpeech?) {
        return None;
      }
      var duration := FrameTime(samples);
      elapsed := elapsed + duration;
      if elapsed >= Ns(turn.maxTurnMs) {
        Finish();
        return Some(Timeout);
      }
      var speech := score(heard) >= turn.speechThreshold;
      if speech {
        if state.WaitingForSpeech? {
          onset := onset + duration;
          if onset >= Ns(turn.speechOnsetMs) {
            state, silence := InSpeech, 0;
          }
        } else {
          silence := 0;
        }
      } else if state.WaitingForSpeech? {
        onset := 0;
      } else {
        silence := silence + duration;
        if silence >= Ns(turn.trailingSilenceMs) {
          Finish();
          return Some(Endpointed);
        }
      }
      if state.WaitingForSpeech? && elapsed >= Ns(turn.noSpeechTimeoutMs) {
        Finish();
        return Some(NoSpeech);
      }
      return None;
    }

    method EndOfStream() returns (reason: Option<Reason>)
      modifies this
      ensures reason == if old(Abs()).InTurn() then Some(EOF) else None
      ensures Abs() == if old(Abs()).InTurn() then Finished(old(Abs())) else old(Abs())
    {
      if !(state.WaitingForSpeech? || state.InSpeech?) {
        return None;
      }
      Finish();
      return Some(EOF);
    }

    method Cancel()
      modifies this
      ensures Abs() == Finished(old(Abs()))
    {
      Finish();
    }

    method Finish()
      modifies this
      ensures Abs() == Finished(old(Abs()))
    {
      if state.WaitingForSpeech? || state.InSpeech? {
        state := Completed;
      }
      if pending.Some? {
        config, pending := pending.value, None;
      }
    }
  }

  // ---------------------------------------------------------------- the rule

  /** What a turn is judged by: its configuration, its pre-roll, and what the detector heard before it. */
  datatype Turn = Turn(score: Detector, before: seq<seq<int>>, config: Config, preRoll: nat)

  predicate Speech(t: Turn, frames: seq<seq<int>>)
  {
    t.score(t.before + frames) >= t.config.speechThreshold
  }

  /** Audio of the turn so far, pre-roll included. */
  function Elapsed(t: Turn, frames: seq<seq<int>>): int {
    if frames == [] then DurationOf(t.preRoll, RATE)
      else Elapsed(t, frames[..|frames| - 1]) + FrameTime(frames[|frames| - 1])
  }

  /** Length of the run of speech the frames end in. */
  function SpeechRun(t: Turn, frames: seq<seq<int>>): int {
    if frames == [] || !Speech(t, frames) then 0
      else SpeechRun(t, frames[..|frames| - 1]) + FrameTime(frames[|frames| - 1])
  }

  /** Length of the silence the frames end in. */
  function SilentRun(t: Turn, frames: seq<seq<int>>): int {
    if frames == [] || Speech(t, frames) then 0
      else SilentRun(t, frames[..|frames| - 1]) + FrameTime(frames[|frames| - 1])
  }

  /** Some run of consecutive speech has reached the onset. */
  ghost predicate Spoken(t: Turn, frames: seq<seq<int>>) {
    exists k :: 1 <= k <= |frames| && OnsetAt(t, frames, k)
  }

  ghost predicate OnsetAt(t: Turn, frames: seq<seq<int>>, k: nat)
    requires k <= |frames|
  {
    Speech(t, frames[..k]) && SpeechRun(t, frames[..k]) >= Ns(t.config.speechOnsetMs)
  }

  /** Why the last of these frames ends the turn, if it does: too long, else done speaking, else never spoke. */
  ghost function Verdict(t: Turn, frames: seq<seq<int>>): Option<Reason> {
    if frames == [] then None
    else if Elapsed(t, frames) >= Ns(t.config.maxTurnMs) then Some(Timeout)
    else if Spoken(t, frames) then
      if !Speech(t, frames) && SilentRun(t, frames) >= Ns(t.config.trailingSilenceMs) then Some(Endpointed) else None
    else if Elapsed(t, frames) >= Ns(t.config.noSpeechTimeoutMs) then Some(NoSpeech) else None
  }

  ghost predicate Undecided(t: Turn, frames: seq<seq<int>>) {
    forall k :: 0 <= k <= |frames| ==> Verdict(t, frames[..k]).None?
  }

  // ---------------------------------------------------------------- the controller implements the rule

  lemma SpokenSnoc(t: Turn, frames: seq<seq<int>>, f: seq<int>)
    ensures Spoken(t, frames + [f]) <==>
      Spoken(t, frames) || (Speech(t, frames + [f]) && SpeechRun(t, frames + [f]) >= Ns(t.config.speechOnsetMs))
  {
    var all := frames + [f];
    assert all[..|all|] == all;
    forall k | 1 <= k <= |frames| ensures OnsetAt(t, all, k) == OnsetAt(t, frames, k) {
      assert all[..k] == frames[..k];
    }
    if Spoken(t, frames) {
      var k :| 1 <= k <= |frames| && OnsetAt(t, frames, k);
      assert OnsetAt(t, all, k);
    }
    if Speech(t, all) && SpeechRun(t, all) >= Ns(t.config.speechOnsetMs) {
      assert OnsetAt(t, all, |all|);
    }
  }

  /** The controller's fields mean what the rule measures. */
  ghost predicate Tracks(t: Turn, c: Ctl, frames: seq<seq<int>>) {
    && c.InTurn() && c.turn == t.config && c.heard == t.before + frames
    && c.elapsed == Elapsed(t, frames)
    && (c.state.InSpeech? <==> Spoken(t, frames))
    && (c.state.WaitingForSpeech? ==> c.onset == SpeechRun(t, frames))
    && (c.state.InSpeech? ==> c.silence == SilentRun(t, frames))
  }

  lemma StartTracks(t: Turn, c: Ctl)
    requires !c.InTurn() && t.before == c.heard && t.config == c.config
    ensures Tracks(t, Started(c, t.preRoll), [])
  {
    assert t.before + [] == t.before;
  }

  /** One frame: the controller stops exactly when the rule says so, and for its reason. */
  lemma ObserveTracks(t: Turn, c: Ctl, frames: seq<seq<int>>, f: seq<int>)
    requires Tracks(t, c, frames)
    ensures var (d, r) := Observed(t.score, c, f);
            && r == Verdict(t, frames + [f])
            && (r.None? ==> Tracks(t, d, frames + [f]) && d.config == c.config && d.pending == c.pending)
            && (r.Some? ==>
                  && d.state.Completed? && d.pending.None?
                  && d.config == (if c.pending.Some? then c.pending.value else c.config))
  {
    CountedTracks(t, c, frames, f);
  }

  lemma CountedTracks(t: Turn, c: Ctl, frames: seq<seq<int>>, f: seq<int>)
    requires Tracks(t, c, frames)
    ensures t.before + (frames + [f]) == c.heard + [f] && Elapsed(t, frames + [f]) == c.elapsed + FrameTime(f)
    ensures var all := frames + [f];
            var d := Counted(c.(heard := c.heard + [f], elapsed := c.elapsed + FrameTime(f)), f, Speech(t, all));
            && d.InTurn() && (d.state.InSpeech? <==> Spoken(t, all))
            && (d.state.WaitingForSpeech? ==> d.onset == SpeechRun(t, all))
            && (d.state.InSpeech? ==> d.silence == SilentRun(t, all))
  {
    var all := frames + [f];
    assert all[..|all| - 1] == frames;
    assert t.before + all == t.before + frames + [f];
    SpokenSnoc(t, frames, f);
  }

  datatype Event = Frame(samples: seq<int>) | Stage(config: Config)

  function Step(score: Detector, c: Ctl, e: Event): Ctl {
    match e
    case Frame(f) => Observed(score, c, f).0
    case Stage(config) => Staged(c, config)
  }

  function Run(score: Detector, c: Ctl, events: seq<Event>): Ctl {
    if events == [] then c else Step(score, Run(score, c, events[..|events| - 1]), events[|events| - 1])
  }

  function Frames(events: seq<Event>): seq<seq<int>> {
    if events == [] then [] else
      Frames(events[..|events| - 1]) + (if events[|events| - 1].Frame? then [events[|events| - 1].samples] else [])
  }

  /** The newest staged configuration, or the one in force. */
  function Newest(config: Config, events: seq<Event>): Config {
    if events == [] then config
    else if events[|events| - 1].Stage? then events[|events| - 1].config
    else Newest(config, events[..|events| - 1])
  }

  /** The configuration the next turn will use. */
  function NextConfig(c: Ctl): Config {
    if c.pending.Some? then c.pending.value else c.config
  }

  lemma UndecidedSnoc(t: Turn, frames: seq<seq<int>>, f: seq<int>)
    ensures Undecided(t, frames + [f]) <==> Undecided(t, frames) && Verdict(t, frames + [f]).None?
  {
    var all := frames + [f];
    assert all[..|all|] == all;
    assert forall k :: 0 <= k <= |frames| ==> all[..k] == frames[..k];
  }

  /**
   Through any frames and staged configurations after a start: the turn is still open exactly
   while no prefix of its frames has a verdict, and the next turn uses what was staged last.
   */
  lemma {:induction false} RunFollowsRule(t: Turn, c: Ctl, events: seq<Event>)
    requires !c.InTurn() && t.before == c.heard && t.config == c.config
    ensures var d := Run(t.score, Started(c, t.preRoll), events);
            && (Undecided(t, Frames(events)) ==> Tracks(t, d, Frames(events)))
            && (!Undecided(t, Frames(events)) ==> d.state.Completed? && d.pending.None?)
            && NextConfig(d) == Newest(NextConfig(c), events)
  {
    if events == [] {
      StartTracks(t, c);
      assert Verdict(t, []).None?;
    } else {
      var before, e := events[..|events| - 1], events[|events| - 1];
      RunFollowsRule(t, c, before);
      if e.Frame? {
        UndecidedSnoc(t, Frames(before), e.samples);
        if Undecided(t, Frames(before)) {
          ObserveTracks(t, Run(t.score, Started(c, t.preRoll), before), Frames(before), e.samples);
        }
      } else {
        assert Frames(before) + [] == Frames(before);
      }
    }
  }

  /** What the controller answers to one more frame: the rule's verdict, once, and nothing afterwards. */
  lemma StopsOnceByRule(t: Turn, c: Ctl, events: seq<Event>, f: seq<int>)
    requires !c.InTurn() && t.before == c.heard && t.config == c.config
    ensures Observed(t.score, Run(t.score, Started(c, t.preRoll), events), f).1
         == if Undecided(t, Frames(events)) then Verdict(t, Frames(events) + [f]) else None
  {
    RunFollowsRule(t, c, events);
    if Undecided(t, Frames(events)) {
      ObserveTracks(t, Run(t.score, Started(c, t.preRoll), events), Frames(events), f);
    }
  }

  /**
   While a turn is open its audio is below the limit, unless its pre-roll alone reaches it and no
   frame has followed yet.
   */
  lemma OpenTurnBelowLimit(t: Turn, frames: seq<seq<int>>)
    requires Undecided(t, frames)
    ensures Elapsed(t, frames) < Ns(t.config.maxTurnMs)
      <==> frames != [] || DurationOf(t.preRoll, RATE) < Ns(t.config.maxTurnMs)
  {
    assert frames[..|frames|] == frames;
    assert Verdict(t, frames[..|frames|]).None?;
  }

  // ---------------------------------------------------------------- onset, without the running sum

  /** Total length of the frames from a on, up to b. */
  function Span(frames: seq<seq<int>>, a: nat, b: nat): int
    requires a <= b <= |frames|
    decreases b - a
  {
    if a == b then 0 else Span(frames, a, b - 1) + FrameTime(frames[b - 1])
  }

  ghost predicate AllSpeech(t: Turn, frames: seq<seq<int>>, a: nat, b: nat)
    requires a <= b <= |frames|
  {
    forall k :: a < k <= b ==> Speech(t, frames[..k])
  }

  /** The current run of speech is some stretch of speech frames ending here. */
  lemma {:induction false} RunIsSpan(t: Turn, frames: seq<seq<int>>, b: nat) returns (a: nat)
    requires b <= |frames|
    ensures a <= b && AllSpeech(t, frames, a, b) && SpeechRun(t, frames[..b]) == Span(frames, a, b)
    ensures a > 0 ==> !Speech(t, frames[..a])
  {
    if b == 0 || !Speech(t, frames[..b]) {
      a := b;
    } else {
      a := RunIsSpan(t, frames, b - 1);
      assert frames[..b][..b - 1] == frames[..b - 1];
    }
  }

  /** With frames of representable length, no stretch of speech ending here is longer than the current run. */
  lemma {:induction false} RunIsLongest(t: Turn, frames: seq<seq<int>>, a: nat, b: nat)
    requires a <= b <= |frames| && AllSpeech(t, frames, a, b)
    requires forall k :: 0 <= k < |frames| ==> |frames[k]| <= 9_223_372_036
    ensures Span(frames, a, b) <= SpeechRun(t, frames[..b])
  {
    if a < b {
      RunIsLongest(t, frames, a, b - 1);
      assert Speech(t, frames[..b]);
      assert frames[..b][..b - 1] == frames[..b - 1];
    } else {
      RunNonnegative(t, frames[..b]);
    }
  }

  lemma {:induction false} RunNonnegative(t: Turn, frames: seq<seq<int>>)
    requires forall k :: 0 <= k < |frames| ==> |frames[k]| <= 9_223_372_036
    ensures SpeechRun(t, frames) >= 0
  {
    if frames != [] {
      RunNonnegative(t, frames[..|frames| - 1]);
      TimeNonnegative(frames[|frames| - 1]);
    }
  }

  lemma TimeNonnegative(frame: seq<int>)
    requires |frame| <= 9_223_372_036
    ensures FrameTime(frame) >= 0
  {
  }

  /** The turn has spoken once some stretch of consecutive speech frames is as long as the onset. */
  lemma SpokenIsSomeStretch(t: Turn, frames: seq<seq<int>>)
    requires forall k :: 0 <= k < |frames| ==> |frames[k]| <= 9_223_372_036
    ensures Spoken(t, frames) <==>
      exists a: nat, b: nat :: Stretch(t, frames, a, b)
  {
    if Spoken(t, frames) {
      var k :| 1 <= k <= |frames| && OnsetAt(t, frames, k);
      var a := RunIsSpan(t, frames, k);
      assert Stretch(t, frames, a, k);
    }
    if exists a: nat, b: nat :: Stretch(t, frames, a, b) {
      var a: nat, b: nat :| Stretch(t, frames, a, b);
      RunIsLongest(t, frames, a, b);
      assert Speech(t, frames[..b]);
      assert OnsetAt(t, frames, b);
    }
  }

  ghost predicate Stretch(t: Turn, frames: seq<seq<int>>, a: nat, b: nat) {
    a < b <= |frames| && AllSpeech(t, frames, a, b) && Span(frames, a, b) >= Ns(t.config.speechOnsetMs)
  }
}

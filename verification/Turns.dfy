/** The turn coordinator: one subscriber of the capture stream that assembles the audio of voice turns. */
module Turns {
  import opened Wrappers
  import opened Int64
  import opened Pcm
  import E = Endpointing

  const HISTORY_SAMPLES: nat := 5 * RATE

  /** A stretch of the captured stream. */
  datatype Frame = Frame(offset: int, samples: seq<Sample>)
  {
    function End(): int {
      offset + |samples|
    }
  }

  /** A request to start a turn: what triggered it, the audio before it and where that audio begins. */
  datatype Request = Request(trigger: int, preRoll: seq<Sample>, offset: int)

  datatype Stop = Endpoint(reason: E.Reason) | CaptureOverrun

  /** A turn's audio as encoded pieces; base is where in the captured stream it begins. */
  datatype Turn = Turn(trigger: int, base: int, pcm: seq<seq<Byte>>, reason: Option<Stop>)

  datatype Coord = Coord(ctl: E.Ctl, connected: bool, active: bool, pending: bool, nextOffset: int,
                         history: seq<Frame>, historySize: int, turn: Turn, droppedAt: nat)

  // ---------------------------------------------------------------- critical sections as functions

  /** Appends the part of a frame that follows the turn's audio; a frame that begins later is a gap. */
  function Appended(score: E.Detector, c: Coord, f: Frame): (Coord, Option<Stop>) {
    if f.End() <= c.nextOffset then (c, None)
    else if f.offset > c.nextOffset then (c, Some(CaptureOverrun))
    else Extended(score, c, f.samples[c.nextOffset - f.offset..])
  }

  /** Samples that follow the turn's audio. */
  function Extended(score: E.Detector, c: Coord, rest: seq<Sample>): (Coord, Option<Stop>) {
    var (ctl, reason) := E.Observed(score, c.ctl, rest);
    (c.(ctl := ctl, nextOffset := c.nextOffset + |rest|, turn := c.turn.(pcm := c.turn.pcm + [Encode(rest)])),
     if reason.Some? then Some(Endpoint(reason.value)) else None)
  }

  /** Appends frames in order until one ends the turn. */
  function AppendedAll(score: E.Detector, c: Coord, frames: seq<Frame>): (Coord, Option<Stop>) {
    if frames == [] then (c, None) else
      var (d, stop) := AppendedAll(score, c, frames[..|frames| - 1]);
      if stop.Some? then (d, stop) else Appended(score, d, frames[|frames| - 1])
  }

  /** The oldest frames go until the rest is small enough. */
  function Trimmed(history: seq<Frame>, size: int): (seq<Frame>, int) {
    if size > HISTORY_SAMPLES && history != [] then Trimmed(history[1..], size - |history[0].samples|)
      else (history, size)
  }

  function Remembered(c: Coord, f: Frame): Coord {
    var (history, size) := Trimmed(c.history + [f], c.historySize + |f.samples|);
    c.(history := history, historySize := size)
  }

  /** The turn just after a start, before the remembered frames are added. */
  function Opened(c: Coord, q: Request, dropped: nat): Coord {
    c.(pending := false, ctl := E.Started(c.ctl, |q.preRoll|), active := true, nextOffset := q.offset + |q.preRoll|,
       droppedAt := dropped,
       turn := Turn(q.trigger, q.offset, if |q.preRoll| > 0 then [Encode(q.preRoll)] else [], None))
  }

  /** A request may claim the coordinator. */
  predicate Free(c: Coord) {
    c.connected && !c.active && !c.pending
  }

  predicate CanStart(c: Coord) {
    c.connected && !c.active && !c.ctl.InTurn()
  }

  function Started(score: E.Detector, c: Coord, q: Request, dropped: nat): (Coord, Option<Stop>) {
    if !CanStart(c) then (c.(pending := false), None) else AppendedAll(score, Opened(c, q, dropped), c.history)
  }

  function Observed(score: E.Detector, c: Coord, f: Frame, dropped: nat): (Coord, Option<Stop>) {
    if !c.active then
      (Remembered(c.(nextOffset := f.End()), f).(ctl := E.Observed(score, c.ctl, f.samples).0), None)
    else if dropped != c.droppedAt then (c, Some(CaptureOverrun))
    else Appended(score, c, f)
  }

  /** Ends the turn; the result is what is handed over, if anything. */
  function Ended(c: Coord, stop: Stop): (Coord, Option<Turn>) {
    if !c.active then (c, None) else
      var turn := c.turn.(reason := Some(stop));
      (c.(active := false, turn := turn), if c.connected then Some(turn) else None)
  }

  function Linked(c: Coord, connected: bool): Coord {
    if connected then c.(connected := true)
    else c.(connected := false, active := false, pending := false, ctl := E.Finished(c.ctl))
  }

  // ---------------------------------------------------------------- the coordinator object

  class TurnCoordinator {
    const controller: E.Controller
    var connected: bool
    var active: bool
    var pending: bool
    var nextOffset: int
    var history: seq<Frame>
    var historySize: int
    var turn: Turn
    var droppedAt: nat

    constructor (controller: E.Controller)
      ensures this.controller == controller
      ensures Abs() == Coord(controller.Abs(), false, false, false, 0, [], 0, Turn(0, 0, [], None), 0)
    {
      this.controller := controller;
      connected, active, pending, nextOffset, history, historySize := false, false, false, 0, [], 0;
      turn, droppedAt := Turn(0, 0, [], None), 0;
    }

    function Abs(): Coord
      reads this, controller
    {
      Coord(controller.Abs(), connected, active, pending, nextOffset, history, historySize, turn, droppedAt)
    }

    /** The first half of a trigger: claims the coordinator for one request. */
    method Reserve() returns (ok: bool)
      modifies this`pending
      ensures ok == Free(old(Abs())) && (ok <==> old(connected && !active && !pending))
      ensures Abs() == if ok then old(Abs()).(pending := true) else old(Abs())
    {
      if !connected || active || pending {
        return false;
      }
      pending := true;
      return true;
    }

    method AppendFrame(f: Frame) returns (stop: Option<Stop>)
      modifies this`turn, this`nextOffset, controller
      ensures (Abs(), stop) == Appended(controller.score, old(Abs()), f)
    {
      var end := f.offset + |f.samples|;
      if end <= nextOffset {
        return None;
      }
      var from := if nextOffset - f.offset > 0 then nextOffset - f.offset else 0;
      if from > |f.samples| || f.offset + from != nextOffset {
        return Some(CaptureOverrun);
      }
      assert from == nextOffset - f.offset;
      stop := Extend(f.samples[from..]);
    }

    /** Encodes samples that follow the turn's audio and shows them to the controller. */
    method Extend(samples: seq<Sample>) returns (stop: Option<Stop>)
      modifies this`turn, this`nextOffset, controller
      ensures (Abs(), stop) == Extended(controller.score, old(Abs()), samples)
    {
      var data := EncodePCM(samples);
      turn := turn.(pcm := turn.pcm + [data[..]]);
      nextOffset := nextOffset + |samples|;
      var reason := controller.Observe(samples);
      return if reason.Some? then Some(Endpoint(reason.value)) else None;
    }

    method Start(q: Request, dropped: nat) returns (stop: Option<Stop>)
      modifies this, controller
      ensures (Abs(), stop) == Started(controller.score, old(Abs()), q, dropped)
    {
      pending := false;
      if !connected || active {
        return None;
      }
      var ok := controller.Start(|q.preRoll|);
      if !ok {
        return None;
      }
      active, nextOffset, droppedAt := true, q.offset + |q.preRoll|, dropped;
      turn := Turn(q.trigger, q.offset, [], None);
      if |q.preRoll| > 0 {
        var data := EncodePCM(q.preRoll);
        turn := turn.(pcm := [data[..]]);
      }
      stop := AppendHistory();
    }

    method AppendHistory() returns (stop: Option<Stop>)
      modifies this`turn, this`nextOffset, controller
      ensures (Abs(), stop) == AppendedAll(controller.score, old(Abs()), old(history))
    {
      for i := 0 to |history|
        invariant history == old(history)
        invariant (Abs(), None) == AppendedAll(controller.score, old(Abs()), history[..i])
      {
        AppendedNext(controller.score, old(Abs()), history, i);
        stop := AppendFrame(history[i]);
        if stop.Some? {
          AppendedStops(controller.score, old(Abs()), history, i + 1, |history|);
          assert history[..|history|] == history;
          return;
        }
      }
      assert history[..|history|] == history;
      return None;
    }

    method Observe(f: Frame, dropped: nat) returns (stop: Option<Stop>)
      modifies this, controller
      ensures (Abs(), stop) == Observed(controller.score, old(Abs()), f, dropped)
    {
      if !active {
        nextOffset := f.offset + |f.samples|;
        Remember(f);
        var ignored := controller.Observe(f.samples);
        return None;
      }
      if dropped != droppedAt {
        return Some(CaptureOverrun);
      }
      stop := AppendFrame(f);
    }

    method Remember(f: Frame)
      modifies this`history, this`historySize
      ensures Abs() == Remembered(old(Abs()), f)
    {
      history := history + [f];
      historySize := historySize + |f.samples|;
      while historySize > HISTORY_SAMPLES && |history| > 0
        invariant Trimmed(history, historySize) == Trimmed(old(history) + [f], old(historySize) + |f.samples|)
        decreases |history|
      {
        historySize := historySize - |history[0].samples|;
        history := history[1..];
      }
    }

    /** The locked half of finish; the turn it returns is then offered to the transport. */
    method Finish(stop: Stop) returns (handed: Option<Turn>)
      modifies this`turn, this`active
      ensures (Abs(), handed) == Ended(old(Abs()), stop)
      ensures !active && (handed.Some? <==> old(active && connected))
      ensures handed.Some? ==> handed.value == old(turn).(reason := Some(stop))
    {
      if !active {
        return None;
      }
      turn, active := turn.(reason := Some(stop)), false;
      return if connected then Some(turn) else None;
    }

    /** The locked half of a connection change. */
    method SetConnected(value: bool) returns (becameIdle: bool)
      modifies this`connected, this`active, this`pending, controller
      ensures becameIdle <==> !value && old(active || pending)
      ensures Abs() == Linked(old(Abs()), value)
      ensures connected == value && (!value ==> !active && !pending && !controller.Abs().InTurn())
    {
      connected := value;
      becameIdle := false;
      if !value {
        becameIdle := active || pending;
        active, pending := false, false;
        controller.Cancel();
      }
    }
  }

  lemma AppendedNext(score: E.Detector, c: Coord, frames: seq<Frame>, i: nat)
    requires i < |frames| && AppendedAll(score, c, frames[..i]).1.None?
    ensures AppendedAll(score, c, frames[..i + 1]) == Appended(score, AppendedAll(score, c, frames[..i]).0, frames[i])
  {
    assert frames[..i + 1][..i] == frames[..i];
  }

  lemma {:induction false} AppendedStops(score: E.Detector, c: Coord, frames: seq<Frame>, i: nat, n: nat)
    requires i <= n <= |frames| && AppendedAll(score, c, frames[..i]).1.Some?
    ensures AppendedAll(score, c, frames[..n]) == AppendedAll(score, c, frames[..i])
  {
    if i < n {
      AppendedStops(score, c, frames, i, n - 1);
      assert frames[..n][..n - 1] == frames[..n - 1];
    }
  }
}

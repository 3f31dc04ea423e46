/** Button recognition: taps, holds and repeats from key events and timers that can fire late. */
module Buttons {
  import opened Wrappers

  const HOLD_NS: int := 700_000_000
  const REPEAT_NS: int := 200_000_000

  datatype Key = VolumeDown | VolumeUp | Mute | Action | Other(code: nat)
  datatype Kind = Tap | HoldStart | HoldEnd | Repeat
  datatype Press = Press(key: Key, kind: Kind, held: int, at: int)
  datatype PressState = PressState(started: int, holdStarted: bool)

  /** What a timer delivers: the key and the generation it was armed for. */
  datatype Due = Due(key: Key, generation: nat)

  type Pressed = map<Key, PressState>

  predicate Volume(k: Key) {
    k.VolumeDown? || k.VolumeUp?
  }

  predicate TapHold(k: Key) {
    k.Mute? || k.Action?
  }

  // ---------------------------------------------------------------- the recogniser as functions

  function FedVolume(p: Pressed, k: Key, value: int, at: int): (Pressed, seq<Press>) {
    if value == 1 then (p[k := PressState(at, false)], [Press(k, Tap, 0, at)])
    else if value == 2 then (p, if k in p then [Press(k, Repeat, at - p[k].started, at)] else [])
    else if value == 0 then (p - {k}, [])
    else (p, [])
  }

  function FedTapHold(p: Pressed, k: Key, value: int, at: int): (Pressed, seq<Press>) {
    if value == 1 then (p[k := PressState(at, false)], [])
    else if value == 0 && k in p then
      var held := at - p[k].started;
      (p - {k},
       if held < HOLD_NS then [Press(k, Tap, held, at)]
       else if p[k].holdStarted then [Press(k, HoldEnd, held, at)]
       else [Press(k, HoldStart, HOLD_NS, p[k].started + HOLD_NS), Press(k, HoldEnd, held, at)])
    else (p, [])
  }

  function Fed(p: Pressed, k: Key, value: int, at: int): (Pressed, seq<Press>) {
    if Volume(k) then FedVolume(p, k, value, at) else if TapHold(k) then FedTapHold(p, k, value, at) else (p, [])
  }

  function HoldBegun(p: Pressed, k: Key): (Pressed, seq<Press>) {
    if k !in p || p[k].holdStarted || !TapHold(k) then (p, [])
    else (p[k := p[k].(holdStarted := true)], [Press(k, HoldStart, HOLD_NS, p[k].started + HOLD_NS)])
  }

  function Repeated(p: Pressed, k: Key, held: int): seq<Press> {
    if k !in p || !Volume(k) then [] else [Press(k, Repeat, held, p[k].started + held)]
  }

  class Recognizer {
    var pressed: Pressed

    constructor ()
      ensures pressed == map[]
    {
      pressed := map[];
    }

    method Feed(k: Key, value: int, at: int) returns (out: seq<Press>)
      modifies this
      ensures (pressed, out) == Fed(old(pressed), k, value, at)
    {
      match k {
        case VolumeDown => out := FeedVolume(k, value, at);
        case VolumeUp => out := FeedVolume(k, value, at);
        case Mute => out := FeedTapHold(k, value, at);
        case Action => out := FeedTapHold(k, value, at);
        case Other(_) => out := [];
      }
    }

    method FeedVolume(k: Key, value: int, at: int) returns (out: seq<Press>)
      modifies this
      ensures (pressed, out) == FedVolume(old(pressed), k, value, at)
    {
      if value == 1 {
        pressed := pressed[k := PressState(at, false)];
        return [Press(k, Tap, 0, at)];
      }
      if value == 2 {
        if k !in pressed {
          return [];
        }
        return [Press(k, Kind.Repeat, at - pressed[k].started, at)];
      }
      if value == 0 {
        pressed := pressed - {k};
      }
      return [];
    }

    method FeedTapHold(k: Key, value: int, at: int) returns (out: seq<Press>)
      modifies this
      ensures (pressed, out) == FedTapHold(old(pressed), k, value, at)
    {
      if value == 1 {
        pressed := pressed[k := PressState(at, false)];
        return [];
      }
      if value != 0 || k !in pressed {
        return [];
      }
      var state := pressed[k];
      pressed := pressed - {k};
      var held := at - state.started;
      if held < HOLD_NS {
        return [Press(k, Tap, held, at)];
      }
      if state.holdStarted {
        return [Press(k, HoldEnd, held, at)];
      }
      return [Press(k, HoldStart, HOLD_NS, state.started + HOLD_NS), Press(k, HoldEnd, held, at)];
    }

    method StartHold(k: Key) returns (out: seq<Press>)
      modifies this
      ensures (pressed, out) == HoldBegun(old(pressed), k)
    {
      if k !in pressed || pressed[k].holdStarted || !TapHold(k) {
        return [];
      }
      var state := pressed[k];
      pressed := pressed[k := state.(holdStarted := true)];
      return [Press(k, HoldStart, HOLD_NS, state.started + HOLD_NS)];
    }

    method Repeat(k: Key, held: int) returns (out: seq<Press>)
      ensures out == Repeated(pressed, k, held)
    {
      if k !in pressed || !Volume(k) {
        return [];
      }
      return [Press(k, Kind.Repeat, held, pressed[k].started + held)];
    }
  }

  // ---------------------------------------------------------------- the watcher as functions

  /** The watcher's maps; timers holds the timers it can still stop. */
  datatype Watch = Watch(pressed: Pressed, generations: map<Key, nat>, repeatHeld: map<Key, int>, timers: map<Key, Due>)

  function GenerationOf(w: Watch, k: Key): nat {
    if k in w.generations then w.generations[k] else 0
  }

  function HeldOf(w: Watch, k: Key): int {
    if k in w.repeatHeld then w.repeatHeld[k] else 0
  }

  function Expired(w: Watch, k: Key): Watch {
    w.(generations := w.generations[k := GenerationOf(w, k) + 1], timers := w.timers - {k},
        repeatHeld := w.repeatHeld - {k})
  }

  predicate Ends(k: Key, value: int) {
    value == 0 || (value == 2 && Volume(k))
  }

  /** A key event first expires what it ends, then is recognised, then arms a new timer if it begins a press. */
  function AfterEvent(w: Watch, k: Key, value: int, at: int): (Watch, seq<Press>, Option<Due>) {
    var e := if Ends(k, value) then Expired(w, k) else w;
    var (pressed, out) := Fed(e.pressed, k, value, at);
    var f := e.(pressed := pressed);
    if value == 1 && (TapHold(k) || Volume(k)) then (Begun(f, k), out, Some(NextDue(f, k))) else (f, out, None)
  }

  function NextDue(w: Watch, k: Key): Due {
    Due(k, GenerationOf(w, k) + 1)
  }

  /** A new generation of the key, with its timer armed. */
  function Begun(w: Watch, k: Key): Watch {
    var due := NextDue(w, k);
    w.(generations := w.generations[k := due.generation], timers := w.timers[k := due],
       repeatHeld := if Volume(k) then w.repeatHeld[k := 0] else w.repeatHeld)
  }

  function AfterHold(w: Watch, due: Due): (Watch, seq<Press>) {
    if GenerationOf(w, due.key) != due.generation then (w, []) else
      var (pressed, out) := HoldBegun(w.pressed, due.key);
      (w.(timers := w.timers - {due.key}, pressed := pressed), out)
  }

  function AfterRepeat(w: Watch, due: Due): (Watch, seq<Press>, Option<Due>) {
    if GenerationOf(w, due.key) != due.generation then (w, [], None) else
      var held := HeldOf(w, due.key) + REPEAT_NS;
      var out := Repeated(w.pressed, due.key, held);
      var f := w.(timers := w.timers - {due.key}, repeatHeld := w.repeatHeld[due.key := held]);
      if out != [] then (f.(timers := f.timers[due.key := due]), out, Some(due)) else (f, out, None)
  }

  class Watcher {
    const allowed: set<Key>
    const recognizer: Recognizer
    var generations: map<Key, nat>
    var repeatHeld: map<Key, int>
    var timers: map<Key, Due>

    constructor (allowed: set<Key>, recognizer: Recognizer)
      ensures this.allowed == allowed && this.recognizer == recognizer
      ensures Abs() == Watch(recognizer.pressed, map[], map[], map[])
    {
      this.allowed, this.recognizer, generations, repeatHeld, timers := allowed, recognizer, map[], map[], map[];
    }

    function Abs(): Watch
      reads this, recognizer
    {
      Watch(recognizer.pressed, generations, repeatHeld, timers)
    }

    method Expire(k: Key)
      modifies this
      ensures Abs() == Expired(old(Abs()), k)
    {
      generations := generations[k := (if k in generations then generations[k] else 0) + 1];
      timers := timers - {k};
      repeatHeld := repeatHeld - {k};
    }

    method HandleEvent(k: Key, value: int, at: int) returns (out: seq<Press>, armed: Option<Due>)
      modifies this, recognizer
      ensures allowed != {} && k !in allowed ==> Abs() == old(Abs()) && out == [] && armed.None?
      ensures !(allowed != {} && k !in allowed) ==> (Abs(), out, armed) == AfterEvent(old(Abs()), k, value, at)
      ensures armed.Some? <==> (allowed == {} || k in allowed) && value == 1 && (TapHold(k) || Volume(k))
      ensures armed.Some? ==> armed.value.key == k && k in timers && timers[k] == armed.value
      ensures (allowed == {} || k in allowed) && Ends(k, value) ==> k !in timers
    {
      if allowed != {} && k !in allowed {
        return [], None;
      }
      if value == 0 {
        Expire(k);
      }
      if value == 2 && Volume(k) {
        Expire(k);
      }
      out := recognizer.Feed(k, value, at);
      armed := None;
      if value == 1 && (TapHold(k) || Volume(k)) {
        var generation := (if k in generations then generations[k] else 0) + 1;
        generations := generations[k := generation];
        var due := Due(k, generation);
        if Volume(k) {
          repeatHeld := repeatHeld[k := 0];
        }
        timers := timers[k := due];
        armed := Some(due);
      }
    }

    method HandleHold(due: Due) returns (out: seq<Press>)
      modifies this, recognizer
      ensures (Abs(), out) == AfterHold(old(Abs()), due)
      ensures out != [] ==> due.key !in timers
    {
      if (if due.key in generations then generations[due.key] else 0) != due.generation {
        return [];
      }
      timers := timers - {due.key};
      out := recognizer.StartHold(due.key);
    }

    method HandleRepeat(due: Due) returns (out: seq<Press>, armed: Option<Due>)
      modifies this
      ensures (Abs(), out, armed) == AfterRepeat(old(Abs()), due)
      ensures armed == if out == [] then None else Some(due)
      ensures armed.Some? ==> due.key in timers && timers[due.key] == due
    {
      if (if due.key in generations then generations[due.key] else 0) != due.generation {
        return [], None;
      }
      timers := timers - {due.key};
      var held := (if due.key in repeatHeld then repeatHeld[due.key] else 0) + REPEAT_NS;
      repeatHeld := repeatHeld[due.key := held];
      out := recognizer.Repeat(due.key, held);
      armed := None;
      if |out| != 0 {
        timers := timers[due.key := due];
        armed := Some(due);
      }
    }
  }
}

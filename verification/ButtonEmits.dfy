/** What the button watcher emits for every input of every possible run, measured by what happened before it. */
module ButtonEmits {
  import opened Wrappers
  import opened Buttons
  import opened ButtonTraces

  // ---------------------------------------------------------------- key events

  /**
   Letting go of a mute or action key that is down: one tap before 700 ms; from then on one hold-end,
   after a hold-start where none has been emitted. Letting go of one that is not down: nothing.
   */
  ghost predicate ReleaseOut(h: Since, k: Key, at: int, out: seq<Press>) {
    var held := at - h.started;
    && (!Held(h) ==> out == [])
    && (Held(h) && held < 700_000_000 ==> out == [Press(k, Tap, held, at)])
    && (Held(h) && held >= 700_000_000 && h.starts > 0 ==> out == [Press(k, HoldEnd, held, at)])
    && (Held(h) && held >= 700_000_000 && h.starts == 0 ==>
          out == [Press(k, HoldStart, 700_000_000, h.started + 700_000_000), Press(k, HoldEnd, held, at)])
  }

  lemma ReleaseStep(allowed: set<Key>, s: Sys, h: Since, k: Key, at: int)
    requires Inv(s, h, k) && TapHold(k) && Watched(allowed, k)
    ensures ReleaseOut(h, k, at, Next(allowed, s, KeyEvent(k, 0, at)).1) && (Held(h) ==> h.starts <= 1)
  {
  }

  /** Every release of a watched mute or action key on every possible run. */
  lemma ReleaseEmits(allowed: set<Key>, inputs: seq<Input>, n: nat, k: Key, at: int)
    requires Possible(allowed, inputs) && n < |inputs| && inputs[n] == KeyEvent(k, 0, at)
    requires TapHold(k) && Watched(allowed, k)
    ensures ReleaseOut(History(allowed, inputs[..n], k), k, at, OutputAt(allowed, inputs, n))
    ensures Held(History(allowed, inputs[..n], k)) ==> History(allowed, inputs[..n], k).starts <= 1
  {
    AgreesAt(allowed, inputs, n, k);
    ReleaseStep(allowed, After(allowed, inputs[..n]), History(allowed, inputs[..n], k), k, at);
  }

  /** A volume key: one tap when it goes down, one repeat for each kernel repeat while it is down, nothing else. */
  ghost predicate VolumeOut(h: Since, k: Key, value: int, at: int, out: seq<Press>) {
    if value == 1 then out == [Press(k, Tap, 0, at)]
    else if value == 2 && Held(h) then out == [Press(k, Repeat, at - h.started, at)]
    else out == []
  }

  lemma VolumeStep(allowed: set<Key>, s: Sys, h: Since, k: Key, value: int, at: int)
    requires Inv(s, h, k) && Volume(k) && Watched(allowed, k)
    ensures VolumeOut(h, k, value, at, Next(allowed, s, KeyEvent(k, value, at)).1)
  {
  }

  /** Every event of a watched volume key on every possible run. */
  lemma VolumeEmits(allowed: set<Key>, inputs: seq<Input>, n: nat, k: Key, value: int, at: int)
    requires Possible(allowed, inputs) && n < |inputs| && inputs[n] == KeyEvent(k, value, at)
    requires Volume(k) && Watched(allowed, k)
    ensures VolumeOut(History(allowed, inputs[..n], k), k, value, at, OutputAt(allowed, inputs, n))
  {
    AgreesAt(allowed, inputs, n, k);
    VolumeStep(allowed, After(allowed, inputs[..n]), History(allowed, inputs[..n], k), k, value, at);
  }

  /**
   Nothing is emitted for other keys, for keys that are not watched, or when a mute or action key
   goes down or repeats.
   */
  lemma SilentKeys(allowed: set<Key>, inputs: seq<Input>, n: nat, k: Key, value: int, at: int)
    requires n < |inputs| && inputs[n] == KeyEvent(k, value, at)
    requires !Watched(allowed, k) || (!TapHold(k) && !Volume(k)) || (TapHold(k) && value != 0)
    ensures OutputAt(allowed, inputs, n) == []
  {
  }

  // ---------------------------------------------------------------- when a timer is current

  /** Input m armed the timer. */
  ghost predicate Arms(allowed: set<Key>, inputs: seq<Input>, m: nat, d: Due)
    requires m < |inputs|
  {
    Armed(After(allowed, inputs[..m + 1]), d) && !Armed(After(allowed, inputs[..m]), d)
  }

  /** No key event between the two ended or restarted the press. */
  ghost predicate Undisturbed(allowed: set<Key>, inputs: seq<Input>, m: nat, n: nat, k: Key)
    requires n <= |inputs|
  {
    forall j {:trigger inputs[j]} :: m < j < n ==> !Expires(allowed, inputs[j], k)
  }

  lemma ArmingStep(allowed: set<Key>, s: Sys, i: Input, d: Due)
    requires !Armed(s, d) && Armed(Next(allowed, s, i).0, d)
    ensures i.KeyEvent? && i.key == d.key && i.value == 1 && Watched(allowed, d.key)
    ensures d.generation == GenerationOf(Next(allowed, s, i).0.watch, d.key)
    ensures d in Next(allowed, s, i).0.holds <==> TapHold(d.key)
    ensures d in Next(allowed, s, i).0.repeats <==> Volume(d.key)
  {
  }

  /** Only a watched key going down arms a timer. */
  lemma ArmedBy(allowed: set<Key>, inputs: seq<Input>, m: nat, d: Due)
    requires m < |inputs| && Arms(allowed, inputs, m, d)
    ensures inputs[m].KeyEvent? && inputs[m].key == d.key && inputs[m].value == 1 && Watched(allowed, d.key)
    ensures d.generation == GenerationAt(allowed, inputs, m + 1, d.key)
    ensures d in After(allowed, inputs[..m + 1]).holds <==> TapHold(d.key)
    ensures d in After(allowed, inputs[..m + 1]).repeats <==> Volume(d.key)
  {
    AfterNext(allowed, inputs, m);
    ArmingStep(allowed, After(allowed, inputs[..m]), inputs[m], d);
  }

  lemma DownStep(allowed: set<Key>, s: Sys, h: Since, k: Key, at: int, d: Due)
    requires Inv(s, h, k) && Watched(allowed, k) && (TapHold(k) || Volume(k))
    requires d == Due(k, GenerationOf(s.watch, k) + 1)
    ensures Armed(Next(allowed, s, KeyEvent(k, 1, at)).0, d) && !Armed(s, d)
  {
  }

  /** Every watched key that taps or is held arms one when it goes down. */
  lemma DownArms(allowed: set<Key>, inputs: seq<Input>, m: nat, k: Key, at: int) returns (d: Due)
    requires Possible(allowed, inputs) && m < |inputs| && inputs[m] == KeyEvent(k, 1, at)
    requires Watched(allowed, k) && (TapHold(k) || Volume(k))
    ensures d.key == k && Arms(allowed, inputs, m, d)
  {
    d := Due(k, GenerationAt(allowed, inputs, m, k) + 1);
    AfterNext(allowed, inputs, m);
    AgreesAt(allowed, inputs, m, k);
    DownStep(allowed, After(allowed, inputs[..m]), History(allowed, inputs[..m], k), k, at, d);
  }

  lemma KeepsGeneration(allowed: set<Key>, s: Sys, i: Input, k: Key)
    requires !Expires(allowed, i, k)
    ensures GenerationOf(Next(allowed, s, i).0.watch, k) == GenerationOf(s.watch, k)
  {
  }

  lemma {:induction false} SameGeneration(allowed: set<Key>, inputs: seq<Input>, m: nat, n: nat, k: Key)
    requires m < n <= |inputs| && Undisturbed(allowed, inputs, m, n, k)
    ensures GenerationAt(allowed, inputs, n, k) == GenerationAt(allowed, inputs, m + 1, k)
  {
    if m + 1 < n {
      SameGeneration(allowed, inputs, m, n - 1, k);
      AfterNext(allowed, inputs, n - 1);
      KeepsGeneration(allowed, After(allowed, inputs[..n - 1]), inputs[n - 1], k);
    }
  }

  lemma Disturbed(allowed: set<Key>, inputs: seq<Input>, m: nat, n: nat, k: Key)
    requires m < n <= |inputs| && !Undisturbed(allowed, inputs, m, n, k)
    ensures GenerationAt(allowed, inputs, n, k) > GenerationAt(allowed, inputs, m + 1, k)
  {
    var j :| m < j < n && Expires(allowed, inputs[j], k);
    GenerationsGrow(allowed, inputs, m + 1, j, k);
    GenerationNext(allowed, inputs, j, k);
    GenerationsGrow(allowed, inputs, j + 1, n, k);
  }

  /** A timer is current exactly while the press that armed it goes on. */
  lemma CurrentIff(allowed: set<Key>, inputs: seq<Input>, m: nat, n: nat, d: Due)
    requires m < n <= |inputs| && Arms(allowed, inputs, m, d)
    ensures d.generation == GenerationAt(allowed, inputs, n, d.key) <==> Undisturbed(allowed, inputs, m, n, d.key)
  {
    ArmedBy(allowed, inputs, m, d);
    if Undisturbed(allowed, inputs, m, n, d.key) {
      SameGeneration(allowed, inputs, m, n, d.key);
    } else {
      Disturbed(allowed, inputs, m, n, d.key);
    }
  }

  /** The timers that could still be stopped belong to their keys' current generations. */
  ghost predicate AllCurrent(w: Watch) {
    forall k {:trigger w.timers[k]} :: k in w.timers ==> w.timers[k] == Due(k, GenerationOf(w, k))
  }

  lemma CurrentStep(allowed: set<Key>, s: Sys, i: Input)
    requires AllCurrent(s.watch)
    ensures AllCurrent(Next(allowed, s, i).0.watch)
  {
    match i
    case KeyEvent(k, value, at) => EventCurrent(s.watch, k, value, at);
    case HoldTimer(d) =>
    case RepeatTimer(d) =>
  }

  lemma EventCurrent(w: Watch, k: Key, value: int, at: int)
    requires AllCurrent(w)
    ensures AllCurrent(AfterEvent(w, k, value, at).0)
  {
    var e := if Ends(k, value) then Expired(w, k) else w;
    assert AllCurrent(e);
    assert AllCurrent(Begun(e.(pressed := Fed(e.pressed, k, value, at).0), k));
  }

  /** On every run the watcher keeps no timer of a press that has ended. */
  lemma {:induction false} AlwaysCurrent(allowed: set<Key>, inputs: seq<Input>)
    ensures AllCurrent(After(allowed, inputs).watch)
  {
    if inputs != [] {
      AlwaysCurrent(allowed, inputs[..|inputs| - 1]);
      CurrentStep(allowed, After(allowed, inputs[..|inputs| - 1]), inputs[|inputs| - 1]);
    }
  }

  // ---------------------------------------------------------------- timers

  ghost predicate HoldOut(h: Since, k: Key, current: bool, out: seq<Press>) {
    if current && h.starts == 0 then out == [Press(k, HoldStart, 700_000_000, h.started + 700_000_000)] else out == []
  }

  lemma HoldStep(allowed: set<Key>, s: Sys, h: Since, d: Due, current: bool)
    requires Inv(s, h, d.key) && d in s.holds && current == (d.generation == GenerationOf(s.watch, d.key))
    ensures HoldOut(h, d.key, current, Next(allowed, s, HoldTimer(d)).1)
  {
  }

  /**
   A hold timer emits its hold-start, once, exactly while the press that armed it goes on: no release and
   no other press of the key since.
   */
  lemma HoldTimerEmitsIff(allowed: set<Key>, inputs: seq<Input>, m: nat, n: nat, d: Due)
    requires Possible(allowed, inputs) && m < n < |inputs| && Arms(allowed, inputs, m, d) && inputs[n] == HoldTimer(d)
    ensures HoldOut(History(allowed, inputs[..n], d.key), d.key, Undisturbed(allowed, inputs, m, n, d.key),
              OutputAt(allowed, inputs, n))
  {
    ArmedBy(allowed, inputs, m, d);
    CurrentIff(allowed, inputs, m, n, d);
    AgreesAt(allowed, inputs, n, d.key);
    HoldStep(allowed, After(allowed, inputs[..n]), History(allowed, inputs[..n], d.key), d,
      Undisturbed(allowed, inputs, m, n, d.key));
  }

  ghost predicate RepeatOut(h: Since, k: Key, current: bool, out: seq<Press>) {
    var held := 200_000_000 * (h.repeats + 1);
    if current then out == [Press(k, Repeat, held, h.started + held)] else out == []
  }

  lemma RepeatStep(allowed: set<Key>, s: Sys, h: Since, d: Due, current: bool)
    requires Inv(s, h, d.key) && d in s.repeats && current == (d.generation == GenerationOf(s.watch, d.key))
    ensures RepeatOut(h, d.key, current, Next(allowed, s, RepeatTimer(d)).1)
  {
  }

  /**
   A repeat timer emits the next repeat exactly while no release, kernel repeat or other press of
   the key came since.
   */
  lemma RepeatTimerEmitsIff(allowed: set<Key>, inputs: seq<Input>, m: nat, n: nat, d: Due)
    requires Possible(allowed, inputs) && m < n < |inputs| && Arms(allowed, inputs, m, d) && inputs[n] == RepeatTimer(d)
    ensures RepeatOut(History(allowed, inputs[..n], d.key), d.key, Undisturbed(allowed, inputs, m, n, d.key),
              OutputAt(allowed, inputs, n))
  {
    ArmedBy(allowed, inputs, m, d);
    CurrentIff(allowed, inputs, m, n, d);
    AgreesAt(allowed, inputs, n, d.key);
    RepeatStep(allowed, After(allowed, inputs[..n]), History(allowed, inputs[..n], d.key), d,
      Undisturbed(allowed, inputs, m, n, d.key));
  }
}

/** What every run of the button watcher emits, whatever the order in which timers fire. */
module ButtonTraces {
  import opened Wrappers
  import opened Buttons

  datatype Input = KeyEvent(key: Key, value: int, at: int) | HoldTimer(due: Due) | RepeatTimer(due: Due)

  /** One input and what was emitted for it. */
  datatype Step = Step(input: Input, out: seq<Press>)

  /** The watcher with every timer ever armed, any of which may still fire, also after it was stopped. */
  datatype Sys = Sys(watch: Watch, holds: set<Due>, repeats: set<Due>)

  predicate Watched(allowed: set<Key>, k: Key) {
    allowed == {} || k in allowed
  }

  function Next(allowed: set<Key>, s: Sys, i: Input): (Sys, seq<Press>) {
    match i
    case KeyEvent(k, value, at) =>
      if !Watched(allowed, k) then (s, []) else
        var (w, out, armed) := AfterEvent(s.watch, k, value, at);
        (Sys(w, if armed.Some? && TapHold(k) then s.holds + {armed.value} else s.holds,
                if armed.Some? && Volume(k) then s.repeats + {armed.value} else s.repeats), out)
    case HoldTimer(d) => var (w, out) := AfterHold(s.watch, d); (s.(watch := w), out)
    case RepeatTimer(d) => var (w, out, _) := AfterRepeat(s.watch, d); (s.(watch := w), out)
  }

  /** Only armed timers fire. */
  ghost predicate CanHappen(s: Sys, i: Input) {
    match i
    case KeyEvent(_, _, _) => true
    case HoldTimer(d) => d in s.holds
    case RepeatTimer(d) => d in s.repeats
  }

  function Start(): Sys {
    Sys(Watch(map[], map[], map[], map[]), {}, {})
  }

  function After(allowed: set<Key>, inputs: seq<Input>): Sys {
    if inputs == [] then Start() else Next(allowed, After(allowed, inputs[..|inputs| - 1]), inputs[|inputs| - 1]).0
  }

  ghost predicate Possible(allowed: set<Key>, inputs: seq<Input>) {
    forall n {:trigger inputs[n]} :: 0 <= n < |inputs| ==> CanHappen(After(allowed, inputs[..n]), inputs[n])
  }

  function OutputAt(allowed: set<Key>, inputs: seq<Input>, n: nat): seq<Press>
    requires n < |inputs|
  {
    Next(allowed, After(allowed, inputs[..n]), inputs[n]).1
  }

  // ---------------------------------------------------------------- what happened since the latest key-down

  /**
   Since the latest key-down of a key: when it was and how many key-downs there have been; whether a
   key-up or a kernel repeat came after it; hold-starts and generated repeats emitted since.
   */
  datatype Since = Since(downs: nat, started: int, up: bool, kernel: bool, starts: nat, repeats: nat)

  function StartsIn(out: seq<Press>, k: Key): nat {
    if out == [] then 0 else StartsIn(out[1..], k) + if out[0].key == k && out[0].kind.HoldStart? then 1 else 0
  }

  function Extend(s: Since, k: Key, i: Input, out: seq<Press>): Since {
    match i
    case KeyEvent(k', value, at) =>
      if k' != k then s
      else if value == 1 then Since(s.downs + 1, at, false, false, StartsIn(out, k), 0)
      else if value == 0 then s.(up := true, starts := s.starts + StartsIn(out, k))
      else if value == 2 then s.(kernel := true)
      else s
    case HoldTimer(d) => if d.key == k then s.(starts := s.starts + StartsIn(out, k)) else s
    case RepeatTimer(d) => if d.key == k then s.(repeats := s.repeats + |out|) else s
  }

  function History(allowed: set<Key>, inputs: seq<Input>, k: Key): Since {
    if inputs == [] then Since(0, 0, true, false, 0, 0) else
      var n := |inputs| - 1;
      Extend(History(allowed, inputs[..n], k), k, inputs[n], OutputAt(allowed, inputs, n))
  }

  // ---------------------------------------------------------------- the invariant

  /** The key is down: since its latest key-down there was no key-up. */
  ghost predicate Held(h: Since) {
    h.downs > 0 && !h.up
  }

  /** Watcher state and history agree on one watched key. */
  ghost predicate Agrees(w: Watch, h: Since, k: Key) {
    && (h.downs == 0 ==> h.up)
    && (TapHold(k) || Volume(k) ==> (k in w.pressed <==> Held(h)))
    && (TapHold(k) && k in w.pressed ==>
      w.pressed[k].started == h.started && w.pressed[k].holdStarted == (h.starts == 1) && h.starts <= 1)
    && (Volume(k) && k in w.pressed ==> w.pressed[k].started == h.started)
    && (Volume(k) && Held(h) && !h.kernel ==> k in w.repeatHeld && w.repeatHeld[k] == REPEAT_NS * h.repeats)
  }

  /**
   Every armed timer belongs to a generation no newer than its key's; the current one only while
   nothing expired it.
   */
  ghost predicate TimersAgree(s: Sys, h: Since, k: Key) {
    && (forall d {:trigger d in s.holds} :: d in s.holds && d.key == k ==>
          TapHold(k) && d.generation <= GenerationOf(s.watch, k)
              && (d.generation == GenerationOf(s.watch, k) ==> Held(h)))
    && (forall d {:trigger d in s.repeats} :: d in s.repeats && d.key == k ==>
          Volume(k) && d.generation <= GenerationOf(s.watch, k)
              && (d.generation == GenerationOf(s.watch, k) ==> Held(h) && !h.kernel))
  }

  ghost predicate Inv(s: Sys, h: Since, k: Key) {
    Agrees(s.watch, h, k) && TimersAgree(s, h, k)
  }

  lemma EventKeeps(allowed: set<Key>, s: Sys, h: Since, k: Key, value: int, at: int)
    requires Inv(s, h, k) && Watched(allowed, k)
    ensures var (t, out) :=
      Next(allowed, s, KeyEvent(k, value, at)); Inv(t, Extend(h, k, KeyEvent(k, value, at), out), k)
  {
  }

  lemma OtherEventKeeps(allowed: set<Key>, s: Sys, h: Since, k: Key, k': Key, value: int, at: int)
    requires Inv(s, h, k) && k' != k
    ensures var (t, out) :=
      Next(allowed, s, KeyEvent(k', value, at)); Inv(t, Extend(h, k, KeyEvent(k', value, at), out), k)
  {
    if Watched(allowed, k') {
      OtherKeyUntouched(s.watch, k, k', value, at);
    }
  }

  /** Two watchers know the same about a key. */
  ghost predicate SameFor(w: Watch, t: Watch, k: Key) {
    && (k in t.pressed <==> k in w.pressed) && (k in w.pressed ==> t.pressed[k] == w.pressed[k])
    && (k in t.repeatHeld <==> k in w.repeatHeld) && (k in w.repeatHeld ==> t.repeatHeld[k] == w.repeatHeld[k])
    && GenerationOf(t, k) == GenerationOf(w, k)
  }

  lemma ExpiredOther(w: Watch, k: Key, k': Key)
    requires k' != k
    ensures SameFor(w, Expired(w, k'), k)
  {
  }

  lemma FedOther(p: Pressed, k: Key, k': Key, value: int, at: int)
    requires k' != k
    ensures var q := Fed(p, k', value, at).0; (k in q <==> k in p) && (k in p ==> q[k] == p[k])
  {
  }

  lemma OtherKeyUntouched(w: Watch, k: Key, k': Key, value: int, at: int)
    requires k' != k
    ensures SameFor(w, AfterEvent(w, k', value, at).0, k)
    ensures var armed := AfterEvent(w, k', value, at).2; armed.Some? ==> armed.value.key == k'
  {
    var e := if Ends(k', value) then Expired(w, k') else w;
    ExpiredOther(w, k, k');
    var f := e.(pressed := Fed(e.pressed, k', value, at).0);
    FedOther(e.pressed, k, k', value, at);
    SameTrans(w, e, f, k);
    BegunOther(f, k, k');
    SameTrans(w, f, Begun(f, k'), k);
    assert AfterEvent(w, k', value, at).0 == f || AfterEvent(w, k', value, at).0 == Begun(f, k');
  }

  lemma SameTrans(a: Watch, b: Watch, c: Watch, k: Key)
    requires SameFor(a, b, k) && SameFor(b, c, k)
    ensures SameFor(a, c, k)
  {
  }

  lemma BegunOther(w: Watch, k: Key, k': Key)
    requires k' != k
    ensures SameFor(w, Begun(w, k'), k)
  {
  }

  lemma HoldKeeps(allowed: set<Key>, s: Sys, h: Since, k: Key, d: Due)
    requires Inv(s, h, k) && d in s.holds
    ensures var (t, out) := Next(allowed, s, HoldTimer(d)); Inv(t, Extend(h, k, HoldTimer(d), out), k)
  {
    var out := AfterHold(s.watch, d).1;
    if out != [] {
      StartsOne(out[0], k);
      assert out == [out[0]];
    }
  }

  lemma StartsOne(p: Press, k: Key)
    ensures StartsIn([p], k) == if p.key == k && p.kind.HoldStart? then 1 else 0
  {
    assert [p][1..] == [];
  }

  lemma RepeatKeeps(allowed: set<Key>, s: Sys, h: Since, k: Key, d: Due)
    requires Inv(s, h, k) && d in s.repeats
    ensures var (t, out) := Next(allowed, s, RepeatTimer(d)); Inv(t, Extend(h, k, RepeatTimer(d), out), k)
  {
  }

  lemma {:induction false} Always(allowed: set<Key>, inputs: seq<Input>, k: Key)
    requires Possible(allowed, inputs) && Watched(allowed, k)
    ensures Inv(After(allowed, inputs), History(allowed, inputs, k), k)
  {
    if inputs != [] {
      var n := |inputs| - 1;
      var before, i := inputs[..n], inputs[n];
      forall m | 0 <= m < n ensures CanHappen(After(allowed, before[..m]), before[m]) {
        assert before[..m] == inputs[..m] && before[m] == inputs[m];
      }
      Always(allowed, before, k);
      var s, h := After(allowed, before), History(allowed, before, k);
      assert CanHappen(s, i);
      match i
      case KeyEvent(k', value, at) =>
        if k' == k {
          EventKeeps(allowed, s, h, k, value, at);
        } else {
          OtherEventKeeps(allowed, s, h, k, k', value, at);
        }
      case HoldTimer(d) => HoldKeeps(allowed, s, h, k, d);
      case RepeatTimer(d) => RepeatKeeps(allowed, s, h, k, d);
    }
  }

  // ---------------------------------------------------------------- what is emitted

  lemma AgreesAt(allowed: set<Key>, inputs: seq<Input>, n: nat, k: Key)
    requires Possible(allowed, inputs) && Watched(allowed, k) && n < |inputs|
    ensures Inv(After(allowed, inputs[..n]), History(allowed, inputs[..n], k), k)
    ensures CanHappen(After(allowed, inputs[..n]), inputs[n])
    ensures History(allowed, inputs[..n + 1], k)
         == Extend(History(allowed, inputs[..n], k), k, inputs[n], OutputAt(allowed, inputs, n))
  {
    forall m | 0 <= m < n ensures CanHappen(After(allowed, inputs[..n][..m]), inputs[..n][m]) {
      assert inputs[..n][..m] == inputs[..m] && inputs[..n][m] == inputs[m];
    }
    Always(allowed, inputs[..n], k);
    assert inputs[..n + 1][..n] == inputs[..n];
    assert OutputAt(allowed, inputs[..n + 1], n) == OutputAt(allowed, inputs, n);
  }

  /** Only the key itself emits its hold-end, on release, after exactly one hold-start since the latest key-down. */
  lemma HoldEndHasOneStart(allowed: set<Key>, inputs: seq<Input>, n: nat, p: Press)
    requires Possible(allowed, inputs) && n < |inputs| && p in OutputAt(allowed, inputs, n) && p.kind.HoldEnd?
    ensures inputs[n].KeyEvent? && inputs[n].key == p.key && inputs[n].value == 0 && Watched(allowed, p.key)
    ensures var h := History(allowed, inputs[..n], p.key);
            Held(h) && p.held == inputs[n].at - h.started >= HOLD_NS
    ensures History(allowed, inputs[..n + 1], p.key).starts == 1
  {
    OnlyKeysEndHolds(allowed, After(allowed, inputs[..n]), inputs[n], p);
    AgreesAt(allowed, inputs, n, p.key);
    var s := After(allowed, inputs[..n]);
    EndStarts(s.watch.pressed, p.key, inputs[n].at, p);
  }

  lemma OnlyKeysEndHolds(allowed: set<Key>, s: Sys, i: Input, p: Press)
    requires p in Next(allowed, s, i).1 && p.kind.HoldEnd?
    ensures i.KeyEvent? && i.key == p.key && i.value == 0 && Watched(allowed, p.key) && TapHold(p.key)
    ensures Next(allowed, s, i).1 == FedTapHold(s.watch.pressed, p.key, 0, i.at).1
  {
  }

  lemma EndStarts(pressed: Pressed, k: Key, at: int, p: Press)
    requires p in FedTapHold(pressed, k, 0, at).1 && p.kind.HoldEnd?
    ensures k in pressed && p.held == at - pressed[k].started >= HOLD_NS
    ensures StartsIn(FedTapHold(pressed, k, 0, at).1, k) == if pressed[k].holdStarted then 0 else 1
  {
    var out := FedTapHold(pressed, k, 0, at).1;
    if pressed[k].holdStarted {
      StartsOne(out[0], k);
    } else {
      assert out[1..] == [out[1]];
      StartsOne(out[1], k);
    }
  }

  /** A hold timer emits at most one hold-start, while its key is held and before any other. */
  lemma HoldTimerOnlyWhileHeld(allowed: set<Key>, inputs: seq<Input>, n: nat, p: Press)
    requires Possible(allowed, inputs) && n < |inputs| && inputs[n].HoldTimer? && p in OutputAt(allowed, inputs, n)
    requires Watched(allowed, inputs[n].due.key)
    ensures var k, h := inputs[n].due.key, History(allowed, inputs[..n], inputs[n].due.key);
            && p == Press(k, HoldStart, HOLD_NS, h.started + HOLD_NS)
            && Held(h) && h.starts == 0
  {
    AgreesAt(allowed, inputs, n, inputs[n].due.key);
  }

  /** Generated repeats come only while the key is held, before any kernel repeat, at successive multiples of 200 ms. */
  lemma RepeatsAreMultiples(allowed: set<Key>, inputs: seq<Input>, n: nat, p: Press)
    requires Possible(allowed, inputs) && n < |inputs| && inputs[n].RepeatTimer? && p in OutputAt(allowed, inputs, n)
    requires Watched(allowed, inputs[n].due.key)
    ensures var k, h := inputs[n].due.key, History(allowed, inputs[..n], inputs[n].due.key);
            && p == Press(k, Repeat, REPEAT_NS * (h.repeats + 1), h.started + REPEAT_NS * (h.repeats + 1))
            && Volume(k) && Held(h) && !h.kernel
            && History(allowed, inputs[..n + 1], k).repeats == h.repeats + 1
  {
    AgreesAt(allowed, inputs, n, inputs[n].due.key);
  }

  // ---------------------------------------------------------------- expired timers

  predicate Expires(allowed: set<Key>, i: Input, k: Key) {
    i.KeyEvent? && i.key == k && Watched(allowed, k)
        && (Ends(k, i.value) || (i.value == 1 && (TapHold(k) || Volume(k))))
  }

  lemma GenerationStep(allowed: set<Key>, s: Sys, i: Input, k: Key)
    ensures var g, g' := GenerationOf(s.watch, k), GenerationOf(Next(allowed, s, i).0.watch, k);
            g' >= g && (Expires(allowed, i, k) ==> g' > g)
  {
  }

  lemma AfterNext(allowed: set<Key>, inputs: seq<Input>, n: nat)
    requires n < |inputs|
    ensures After(allowed, inputs[..n + 1]) == Next(allowed, After(allowed, inputs[..n]), inputs[n]).0
  {
    assert inputs[..n + 1][..n] == inputs[..n];
  }

  function GenerationAt(allowed: set<Key>, inputs: seq<Input>, n: nat, k: Key): nat
    requires n <= |inputs|
  {
    GenerationOf(After(allowed, inputs[..n]).watch, k)
  }

  lemma GenerationNext(allowed: set<Key>, inputs: seq<Input>, n: nat, k: Key)
    requires n < |inputs|
    ensures GenerationAt(allowed, inputs, n + 1, k) >= GenerationAt(allowed, inputs, n, k)
    ensures Expires(allowed, inputs[n], k) ==>
      GenerationAt(allowed, inputs, n + 1, k) > GenerationAt(allowed, inputs, n, k)
  {
    AfterNext(allowed, inputs, n);
    GenerationStep(allowed, After(allowed, inputs[..n]), inputs[n], k);
  }

  lemma {:induction false} GenerationsGrow(allowed: set<Key>, inputs: seq<Input>, m: nat, n: nat, k: Key)
    requires m <= n <= |inputs|
    ensures GenerationAt(allowed, inputs, m, k) <= GenerationAt(allowed, inputs, n, k)
  {
    if m < n {
      GenerationsGrow(allowed, inputs, m, n - 1, k);
      GenerationNext(allowed, inputs, n - 1, k);
    }
  }

  ghost predicate Armed(s: Sys, d: Due) {
    d in s.holds || d in s.repeats
  }

  lemma ArmedIsNotNewer(allowed: set<Key>, inputs: seq<Input>, m: nat, d: Due)
    requires Possible(allowed, inputs) && m <= |inputs| && Armed(After(allowed, inputs[..m]), d)
      && Watched(allowed, d.key)
    ensures d.generation <= GenerationAt(allowed, inputs, m, d.key)
  {
    PrefixPossible(allowed, inputs, m);
    Always(allowed, inputs[..m], d.key);
  }

  lemma StaleIsSilent(allowed: set<Key>, s: Sys, d: Due)
    requires d.generation != GenerationOf(s.watch, d.key)
    ensures Next(allowed, s, HoldTimer(d)) == (s, []) && Next(allowed, s, RepeatTimer(d)) == (s, [])
  {
  }

  /** Once a key event has ended or restarted a press, no timer armed before it ever emits or changes anything. */
  lemma ExpiredNeverEmits(allowed: set<Key>, inputs: seq<Input>, m: nat, j: nat, n: nat, d: Due)
    requires Possible(allowed, inputs) && m <= j < n <= |inputs|
    requires Armed(After(allowed, inputs[..m]), d) && Expires(allowed, inputs[j], d.key)
    ensures var s := After(allowed, inputs[..n]);
            Next(allowed, s, HoldTimer(d)) == (s, []) && Next(allowed, s, RepeatTimer(d)) == (s, [])
  {
    ArmedIsNotNewer(allowed, inputs, m, d);
    GenerationsGrow(allowed, inputs, m, j, d.key);
    GenerationNext(allowed, inputs, j, d.key);
    GenerationsGrow(allowed, inputs, j + 1, n, d.key);
    StaleIsSilent(allowed, After(allowed, inputs[..n]), d);
  }

  lemma PrefixPossible(allowed: set<Key>, inputs: seq<Input>, m: nat)
    requires Possible(allowed, inputs) && m <= |inputs|
    ensures Possible(allowed, inputs[..m])
  {
    forall i | 0 <= i < m ensures CanHappen(After(allowed, inputs[..m][..i]), inputs[..m][i]) {
      assert inputs[..m][..i] == inputs[..i] && inputs[..m][i] == inputs[i];
    }
  }

  // ---------------------------------------------------------------- the converse does not hold

  /**
   A key released by its own clock before the threshold, but reported after the hold timer fired,
   ends in a tap: its hold-start has no hold-end. It ends in a hold-end exactly when it was held
   for the threshold.
   */
  lemma ReleaseAfterHoldStart(w: Watch, k: Key, at: int)
    requires TapHold(k) && k in w.pressed && w.pressed[k].holdStarted
    ensures var held := at - w.pressed[k].started;
            AfterEvent(w, k, 0, at).1 == [Press(k, if held >= HOLD_NS then HoldEnd else Tap, held, at)]
  {
  }

  lemma HoldStartWithoutEnd(k: Key)
    requires TapHold(k)
    ensures var inputs := [KeyEvent(k, 1, 0), HoldTimer(Due(k, 1)), KeyEvent(k, 0, HOLD_NS - 1)];
            && Possible({}, inputs)
            && OutputAt({}, inputs, 1) == [Press(k, HoldStart, HOLD_NS, HOLD_NS)]
            && OutputAt({}, inputs, 2) == [Press(k, Tap, HOLD_NS - 1, HOLD_NS - 1)]
  {
    var inputs := [KeyEvent(k, 1, 0), HoldTimer(Due(k, 1)), KeyEvent(k, 0, HOLD_NS - 1)];
    assert inputs[..0] == [];
    AfterNext({}, inputs, 0);
    AfterNext({}, inputs, 1);
    var one := After({}, inputs[..1]);
    assert one == Next({}, Start(), inputs[0]).0;
    assert Due(k, 1) in one.holds;
    assert OutputAt({}, inputs, 1) == [Press(k, HoldStart, HOLD_NS, HOLD_NS)];
  }
}

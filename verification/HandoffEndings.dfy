/** Which ending ends a turn, and what an ending leaves open. */
module HandoffEndings {
  import opened Wrappers
  import opened Turns
  import opened Handoff
  import opened HandoffJoin
  import E = Endpointing

  // ---------------------------------------------------------------- a turn and its endings

  /** Some ending has been launched for the current turn. */
  ghost predicate Stopped(w: World) {
    exists i {:trigger w.finishing[i]} :: 0 <= i < |w.finishing| && w.finishing[i].turn == w.turns
  }

  /** The ending at i is the first that was launched for the current turn. */
  ghost predicate OwnFirst(w: World, i: nat)
    requires i < |w.finishing|
  {
    w.finishing[i].turn == w.turns && forall j {:trigger w.finishing[j]} :: 0 <= j < i ==>
        w.finishing[j].turn != w.turns
  }

  /** Whichever ending runs first, the turn ends as its own first stop says. */
  ghost predicate EndsAsStopped(w: World) {
    forall i {:trigger w.finishing[i]} :: 0 <= i < |w.finishing| ==> OwnFirst(w, i)
  }

  /** An event that makes a stopped turn launch one more ending: a gap, a drop or the end of the stream. */
  predicate StopsAgain(w: World, e: Event) {
    || (Takes(w, e) && (w.dropped != w.coord.droppedAt || w.queue[0].offset > w.coord.nextOffset))
    || (e.CloseStream? && w.queue == [] && !w.closed)
  }

  /** Why no frame can stop a stopped turn for its endpoint: the controller is done, or every frame is a gap. */
  ghost predicate Spent(w: World) {
    || !w.coord.ctl.InTurn()
    || w.coord.droppedAt < w.dropped
    || (w.coord.nextOffset < |w.stream| && forall i {:trigger w.queue[i]} :: 0 <= i < |w.queue| ==>
      w.coord.nextOffset < w.queue[i].offset)
  }

  ghost predicate StopInv(w: World) {
    && Tidy(w)
    && (w.coord.active ==> w.coord.droppedAt <= w.dropped)
    && (w.coord.active && Stopped(w) && !w.closed ==> Spent(w))
  }

  /** An endpoint is the controller's own; a gap lies before a frame that has been appended in vain. */
  lemma AppendStops(score: E.Detector, c: Coord, f: Frame)
    ensures var (d, stop) := Appended(score, c, f);
            && d.active == c.active && d.droppedAt == c.droppedAt
            && (stop.Some? && stop.value.Endpoint? ==> !d.ctl.InTurn() && stop.value.reason != E.EOF)
            && (!(stop.Some? && stop.value.Endpoint?) ==> d.ctl.InTurn() == c.ctl.InTurn())
            && (stop == Some(CaptureOverrun) ==> d == c && d.nextOffset < f.offset)
            && (!c.ctl.InTurn() ==> stop in {None, Some(CaptureOverrun)})
            && (stop == Some(CaptureOverrun) <==> f.End() > c.nextOffset && f.offset > c.nextOffset)
  {
  }

  lemma {:induction false} HistoryStops(score: E.Detector, c: Coord, fs: seq<Frame>)
    ensures var (d, stop) := AppendedAll(score, c, fs);
            && (stop.Some? && stop.value.Endpoint? ==> !d.ctl.InTurn() && stop.value.reason != E.EOF)
            && (!(stop.Some? && stop.value.Endpoint?) ==> d.ctl.InTurn() == c.ctl.InTurn())
            && (stop == Some(CaptureOverrun) ==> exists i :: 0 <= i < |fs| && d.nextOffset < fs[i].offset)
  {
    if fs != [] {
      HistoryStops(score, c, fs[..|fs| - 1]);
      AppendStops(score, AppendedAll(score, c, fs[..|fs| - 1]).0, fs[|fs| - 1]);
    }
  }

  lemma StartSpent(score: E.Detector, w: World)
    requires Tidy(w) && Starts(w, TakeTrigger)
    ensures StopInv(Step(score, w, TakeTrigger))
  {
    var w' := Step(score, w, TakeTrigger);
    var c := Opened(w.coord, w.triggers[0], w.dropped);
    TidyStep(score, w, TakeTrigger);
    HistoryKeepsFields(score, c, w.coord.history);
    HistoryStops(score, c, w.coord.history);
    var (d, stop) := AppendedAll(score, c, w.coord.history);
    if stop == Some(CaptureOverrun) {
      var i :| 0 <= i < |w.coord.history| && d.nextOffset < w.coord.history[i].offset;
      PastGap(w, i);
    } else if stop.None? {
      assert !Stopped(w');
    }
  }

  lemma PastGap(w: World, i: nat)
    requires Tidy(w) && i < |w.coord.history|
    ensures w.coord.history[i].offset <= |w.stream| && forall j {:trigger w.queue[j]} :: 0 <= j < |w.queue| ==>
      w.coord.history[i].offset <= w.queue[j].offset
  {
    var h, all := w.coord.history, w.coord.history + w.queue;
    assert h[i].End() <= |w.stream|;
    forall j | 0 <= j < |w.queue| ensures h[i].offset <= w.queue[j].offset {
      assert all[i] == h[i] && all[|h| + j] == w.queue[j];
    }
  }

  lemma QueueLater(w: World, j: nat)
    requires Tidy(w) && 0 < j < |w.queue|
    ensures w.queue[0].End() <= w.queue[j].offset
  {
    var h, all := w.coord.history, w.coord.history + w.queue;
    assert all[|h|] == w.queue[0] && all[|h| + j] == w.queue[j];
  }

  /**
   The next frame of a stopped turn launches another ending exactly when a frame was dropped or it
   begins after the turn's audio; that ending is an overrun.
   */
  lemma NextFrameAfterStop(score: E.Detector, w: World)
    requires StopInv(w) && w.coord.active && Stopped(w) && Takes(w, TakeFrame)
    ensures var w' := Step(score, w, TakeFrame);
            w'.finishing == if StopsAgain(w, TakeFrame) then w.finishing + [Ending(CaptureOverrun, w.turns)]
                else w.finishing
  {
    AppendStops(score, w.coord, w.queue[0]);
    assert w.queue[0].offset <= w.queue[0].End();
  }

  lemma TakeSpent(score: E.Detector, w: World)
    requires StopInv(w) && w.coord.active && Takes(w, TakeFrame)
    ensures StopInv(Step(score, w, TakeFrame))
  {
    var w', f := Step(score, w, TakeFrame), w.queue[0];
    TidyStep(score, w, TakeFrame);
    AppendStops(score, w.coord, f);
    assert f.End() <= |w.stream|;
    forall j | 0 < j < |w.queue| ensures f.End() <= w.queue[j].offset {
      QueueLater(w, j);
    }
    assert forall j :: 0 <= j < |w'.queue| ==> w'.queue[j] == w.queue[j + 1];
    if Stopped(w) {
      NextFrameAfterStop(score, w);
    } else if w'.finishing == w.finishing {
      assert !Stopped(w');
    }
  }

  lemma StopStep(score: E.Detector, w: World, e: Event)
    requires StopInv(w)
    ensures StopInv(Step(score, w, e))
  {
    var w' := Step(score, w, e);
    TidyStep(score, w, e);
    if Starts(w, e) {
      StartSpent(score, w);
    } else if e.TakeFrame? && Takes(w, e) {
      if w.coord.active {
        TakeSpent(score, w);
      }
    } else if w.coord.active && w'.coord.active && !w'.closed {
      assert w'.finishing == w.finishing && w'.turns == w.turns;
      assert Stopped(w) == Stopped(w');
    }
  }

  lemma {:induction false} AlwaysStopInv(score: E.Detector, w: World, events: seq<Event>)
    requires Initial(w)
    ensures StopInv(Run(score, w, events))
  {
    if events == [] {
      AlwaysTidy(score, w, []);
    } else {
      AlwaysStopInv(score, w, events[..|events| - 1]);
      StopStep(score, Run(score, w, events[..|events| - 1]), events[|events| - 1]);
    }
  }

  /** While a turn is active its endings only accumulate; a stopped one gains one exactly at the events named. */
  lemma EndingsGrow(score: E.Detector, w: World, e: Event)
    requires StopInv(w) && w.coord.active && Step(score, w, e).coord.active
    ensures var w' := Step(score, w, e);
            && w'.turns == w.turns && w.finishing <= w'.finishing
            && |w'.finishing| <= |w.finishing| + 1
            && (forall i :: |w.finishing| <= i < |w'.finishing| ==> w'.finishing[i].turn == w.turns)
            && (Stopped(w) ==> (w'.finishing != w.finishing <==> StopsAgain(w, e)))
  {
    if Takes(w, e) && Stopped(w) {
      NextFrameAfterStop(score, w);
    }
  }

  ghost predicate StaysActive(at: nat -> World, n: nat) {
    forall k: nat {:trigger at(k)} :: k <= n ==> at(k).coord.active
  }

  /** The event makes a turn that has already stopped stop again. */
  ghost predicate AgainAt(v: World, e: Event) {
    Stopped(v) && StopsAgain(v, e)
  }

  /** After its first stop, none of the first n events makes the turn stop again. */
  ghost predicate StopsOnce(at: nat -> World, events: seq<Event>, n: nat)
    requires n <= |events|
  {
    forall k: nat {:trigger at(k)} {:trigger events[k]} :: k < n ==> !AgainAt(at(k), events[k])
  }

  /** What has been launched for the turn in the state of a run that keeps it active. */
  ghost predicate Launched(r: World, turns: nat, left: nat, once: bool) {
    && r.coord.active && r.turns == turns && |r.finishing| >= left
    && (forall i :: 0 <= i < left ==> r.finishing[i].turn != turns)
    && (forall i :: left <= i < |r.finishing| ==> r.finishing[i].turn == turns)
    && (|r.finishing| <= left + 1 <==> once)
  }

  lemma LaunchedStep(score: E.Detector, r: World, e: Event, turns: nat, left: nat, once: bool)
    requires StopInv(r) && Launched(r, turns, left, once) && Step(score, r, e).coord.active
    ensures StopInv(Step(score, r, e)) && Launched(Step(score, r, e), turns, left, once && !AgainAt(r, e))
  {
    StopStep(score, r, e);
    EndingsGrow(score, r, e);
    StoppedMeans(r, left);
  }

  lemma LaunchedNext(score: E.Detector, at: nat -> World, events: seq<Event>, n: nat, turns: nat, left: nat, once: bool)
    requires Traced(score, at, events) && n < |events| && at(n + 1).coord.active
    requires StopInv(at(n)) && Launched(at(n), turns, left, once)
    ensures StopInv(at(n + 1)) && Launched(at(n + 1), turns, left, once && !AgainAt(at(n), events[n]))
  {
    assert Follows(score, at, events, n);
    LaunchedStep(score, at(n), events[n], turns, left, once);
  }

  lemma {:induction false} LaunchedRun(score: E.Detector, at: nat -> World, events: seq<Event>, left: nat, n: nat)
    requires Traced(score, at, events) && n <= |events| && StaysActive(at, n)
    requires StopInv(at(0)) && Launched(at(0), at(0).turns, left, true)
    ensures StopInv(at(n)) && Launched(at(n), at(0).turns, left, StopsOnce(at, events, n))
  {
    if n > 0 {
      LaunchedRun(score, at, events, left, n - 1);
      LaunchedNext(score, at, events, n - 1, at(0).turns, left, StopsOnce(at, events, n - 1));
      OnceMore(at, events, n);
    }
  }

  lemma OnceMore(at: nat -> World, events: seq<Event>, n: nat)
    requires 0 < n <= |events|
    ensures StopsOnce(at, events, n) <==> StopsOnce(at, events, n - 1) && !AgainAt(at(n - 1), events[n - 1])
  {
  }

  lemma StoppedMeans(r: World, left: nat)
    requires left <= |r.finishing|
    requires forall i :: 0 <= i < left ==> r.finishing[i].turn != r.turns
    requires forall i :: left <= i < |r.finishing| ==> r.finishing[i].turn == r.turns
    ensures Stopped(r) <==> |r.finishing| > left
    ensures EndsAsStopped(r) <==> r.finishing == [] || (left == 0 && |r.finishing| == 1)
  {
    if |r.finishing| > left {
      assert r.finishing[left].turn == r.turns;
    }
    if |r.finishing| > 1 && left == 0 {
      assert !OwnFirst(r, 1);
    }
    if left > 0 {
      assert !OwnFirst(r, 0);
    }
  }

  /**
   On any run from the beginning, through a start and as long as that turn is active: whichever
   ending runs, the turn ends as its own first stop says, if and only if no ending of an earlier
   turn was left over when it started and, since its first stop, nothing was dropped, no frame
   was read that begins after its audio, and the stream did not end.
   */
  lemma TurnEndsAsStoppedIff(score: E.Detector, w0: World, before: seq<Event>, w: World, busy: seq<Event>,
      at: nat -> World)
    requires Initial(w0) && w == Run(score, w0, before) && Starts(w, TakeTrigger)
    requires at == Trace(score, Step(score, w, TakeTrigger), busy) && StaysActive(at, |busy|) && Stopped(at(|busy|))
    ensures EndsAsStopped(at(|busy|)) <==> w.finishing == [] && StopsOnce(at, busy, |busy|)
  {
    var w' := Step(score, w, TakeTrigger);
    AlwaysStopInv(score, w0, before);
    StopStep(score, w, TakeTrigger);
    RunTraced(score, w', busy);
    StartLaunches(score, w);
    LaunchedRun(score, at, busy, |w.finishing|, |busy|);
    StoppedMeans(at(|busy|), |w.finishing|);
  }

  lemma StartLaunches(score: E.Detector, w: World)
    requires Tidy(w) && Starts(w, TakeTrigger) && Step(score, w, TakeTrigger).coord.active
    ensures var w' := Step(score, w, TakeTrigger); Launched(w', w'.turns, |w.finishing|, true)
  {
    var w' := Step(score, w, TakeTrigger);
    assert forall i :: 0 <= i < |w.finishing| ==> w'.finishing[i] == w.finishing[i];
  }

  // ---------------------------------------------------------------- the controller an ended turn leaves behind

  /** Whether the controller itself has stopped the current turn. */
  ghost predicate StoppedByController(w: World) {
    exists i {:trigger w.finishing[i]} :: 0 <= i < |w.finishing| && ByController(w.finishing[i], w.turns)
  }

  predicate ByController(e: Ending, turn: nat) {
    e.turn == turn && e.stop.Endpoint? && e.stop.reason != E.EOF
  }

  ghost predicate ControllerInv(w: World) {
    && Tidy(w)
    && (w.coord.active ==> (w.coord.ctl.InTurn() <==> !StoppedByController(w)))
  }

  lemma ControllerStep(score: E.Detector, w: World, e: Event)
    requires ControllerInv(w)
    ensures ControllerInv(Step(score, w, e))
  {
    var w' := Step(score, w, e);
    TidyStep(score, w, e);
    if Starts(w, e) {
      HistoryKeepsFields(score, Opened(w.coord, w.triggers[0], w.dropped), w.coord.history);
      HistoryStops(score, Opened(w.coord, w.triggers[0], w.dropped), w.coord.history);
    } else if Takes(w, e) && w.coord.active {
      AppendStops(score, w.coord, w.queue[0]);
    }
    if w'.coord.active {
      ControllerLaunched(w, w');
    }
  }

  lemma ControllerLaunched(w: World, w': World)
    requires Tidy(w) && w.finishing <= w'.finishing && |w'.finishing| <= |w.finishing| + 1 && w.turns <= w'.turns
    ensures var own := |w'.finishing| > |w.finishing| && ByController(w'.finishing[|w.finishing|], w'.turns);
            StoppedByController(w') <==> own || (w'.turns == w.turns && StoppedByController(w))
  {
    assert forall i :: 0 <= i < |w.finishing| ==> w'.finishing[i] == w.finishing[i];
  }

  lemma {:induction false} AlwaysControllerInv(score: E.Detector, w: World, events: seq<Event>)
    requires Initial(w)
    ensures ControllerInv(Run(score, w, events))
  {
    if events == [] {
      AlwaysTidy(score, w, []);
    } else {
      AlwaysControllerInv(score, w, events[..|events| - 1]);
      ControllerStep(score, Run(score, w, events[..|events| - 1]), events[|events| - 1]);
    }
  }

  /**
   Whatever ending runs: the idle coordinator it leaves has an open controller unless that had
   stopped the turn itself.
   */
  lemma EndingLeavesOpenIff(score: E.Detector, w0: World, events: seq<Event>, i: nat)
    requires Initial(w0) && Run(score, w0, events).coord.active && i < |Run(score, w0, events).finishing|
    ensures var w := Run(score, w0, events);
            var w' := Step(score, w, RunFinish(i));
            !w'.coord.active && (w'.coord.ctl.InTurn() <==> !StoppedByController(w))
  {
    AlwaysControllerInv(score, w0, events);
  }

  /** The turn the controller judges after a start. */
  function Judged(score: E.Detector, c: Coord, q: Request): E.Turn {
    E.Turn(score, c.ctl.heard, c.ctl.config, |q.preRoll|)
  }

  /** The controller is open exactly while the rule is undecided on what it has been shown since. */
  ghost predicate Judges(t: E.Turn, ctl: E.Ctl) {
    && t.before <= ctl.heard
    && var shown := ctl.heard[|t.before|..];
       (E.Undecided(t, shown) ==> E.Tracks(t, ctl, shown)) && (!E.Undecided(t, shown) ==> !ctl.InTurn())
  }

  lemma ObserveFollows(t: E.Turn, ctl: E.Ctl, frame: seq<int>)
    requires Judges(t, ctl)
    ensures Judges(t, E.Observed(t.score, ctl, frame).0)
  {
    var shown := ctl.heard[|t.before|..];
    assert (ctl.heard + [frame])[|t.before|..] == shown + [frame];
    E.UndecidedSnoc(t, shown, frame);
    if E.Undecided(t, shown) {
      E.ObserveTracks(t, ctl, shown, frame);
    }
  }

  lemma AppendFollows(t: E.Turn, c: Coord, f: Frame)
    requires Judges(t, c.ctl)
    ensures Judges(t, Appended(t.score, c, f).0.ctl)
  {
    if f.End() > c.nextOffset && f.offset <= c.nextOffset {
      ObserveFollows(t, c.ctl, f.samples[c.nextOffset - f.offset..]);
    }
  }

  lemma {:induction false} HistoryFollows(t: E.Turn, c: Coord, fs: seq<Frame>)
    requires Judges(t, c.ctl)
    ensures Judges(t, AppendedAll(t.score, c, fs).0.ctl)
  {
    if fs != [] {
      HistoryFollows(t, c, fs[..|fs| - 1]);
      AppendFollows(t, AppendedAll(t.score, c, fs[..|fs| - 1]).0, fs[|fs| - 1]);
    }
  }

  lemma StartFollows(score: E.Detector, w: World)
    requires Starts(w, TakeTrigger)
    ensures Judges(Judged(score, w.coord, w.triggers[0]), Step(score, w, TakeTrigger).coord.ctl)
  {
    var q, c := w.triggers[0], Opened(w.coord, w.triggers[0], w.dropped);
    var t := Judged(score, w.coord, q);
    E.StartTracks(t, w.coord.ctl);
    assert c.ctl.heard[|t.before|..] == [];
    assert E.Verdict(t, []).None?;
    assert E.Undecided(t, []);
    HistoryFollows(t, c, w.coord.history);
  }

  predicate Disconnects(e: Event) {
    e.Connect? && !e.connected
  }

  lemma StepFollows(t: E.Turn, w: World, e: Event)
    requires Judges(t, w.coord.ctl) && !Starts(w, e) && !Disconnects(e)
    ensures Judges(t, Step(t.score, w, e).coord.ctl)
  {
    if Takes(w, e) {
      if w.coord.active {
        AppendFollows(t, w.coord, w.queue[0]);
      } else {
        ObserveFollows(t, w.coord.ctl, w.queue[0].samples);
      }
    }
  }

  /** Event j starts a turn, and none of the first n after it starts one or disconnects. */
  ghost predicate LastStart(at: nat -> World, events: seq<Event>, j: nat, n: nat)
    requires j < n <= |events|
  {
    && Starts(at(j), events[j])
    && forall k: nat {:trigger at(k)} {:trigger events[k]} :: j < k < n ==>
      !Starts(at(k), events[k]) && !Disconnects(events[k])
  }

  /** ... and by the rule, what the detector has been shown since then does not end that turn. */
  ghost predicate OpenSince(score: E.Detector, at: nat -> World, events: seq<Event>, j: nat, n: nat)
    requires j < n <= |events|
  {
    && LastStart(at, events, j, n)
    && var c, heard := at(j).coord, at(n).coord.ctl.heard;
       |c.ctl.heard| <= |heard| && E.Undecided(Judged(score, c, at(j).triggers[0]), heard[|c.ctl.heard|..])
  }

  lemma {:induction false} LastStartFollows(score: E.Detector, at: nat -> World, events: seq<Event>, j: nat, n: nat)
    requires Traced(score, at, events) && j < n <= |events| && LastStart(at, events, j, n)
    ensures Judges(Judged(score, at(j).coord, at(j).triggers[0]), at(n).coord.ctl)
  {
    if j == n - 1 {
      assert Follows(score, at, events, j);
      StartFollows(score, at(j));
    } else {
      LastStartFollows(score, at, events, j, n - 1);
      JudgesNext(score, at, events, n - 1, Judged(score, at(j).coord, at(j).triggers[0]));
    }
  }

  lemma JudgesNext(score: E.Detector, at: nat -> World, events: seq<Event>, n: nat, t: E.Turn)
    requires Traced(score, at, events) && n < |events| && t.score == score && Judges(t, at(n).coord.ctl)
    requires !Starts(at(n), events[n]) && !Disconnects(events[n])
    ensures Judges(t, at(n + 1).coord.ctl)
  {
    assert Follows(score, at, events, n);
    StepFollows(t, at(n), events[n]);
  }

  lemma OpensOnlyByStart(score: E.Detector, w: World, e: Event)
    requires Step(score, w, e).coord.ctl.InTurn() && !Starts(w, e)
    ensures w.coord.ctl.InTurn() && !Disconnects(e)
  {
    if Takes(w, e) && w.coord.active {
      AppendStops(score, w.coord, w.queue[0]);
    }
  }

  lemma {:induction false} OpenHasStart(score: E.Detector, at: nat -> World, events: seq<Event>, n: nat)
      returns (j: nat)
    requires Traced(score, at, events) && n <= |events| && !at(0).coord.ctl.InTurn() && at(n).coord.ctl.InTurn()
    ensures j < n && LastStart(at, events, j, n)
  {
    OpenBefore(score, at, events, n - 1);
    if Starts(at(n - 1), events[n - 1]) {
      j := n - 1;
    } else {
      j := OpenHasStart(score, at, events, n - 1);
    }
  }

  lemma OpenBefore(score: E.Detector, at: nat -> World, events: seq<Event>, n: nat)
    requires Traced(score, at, events) && n < |events| && at(n + 1).coord.ctl.InTurn()
    ensures Starts(at(n), events[n]) || (at(n).coord.ctl.InTurn() && !Disconnects(events[n]))
  {
    assert Follows(score, at, events, n);
    if !Starts(at(n), events[n]) {
      OpensOnlyByStart(score, at(n), events[n]);
    }
  }

  /**
   On every run from the beginning the controller is open exactly while the rule has no verdict on
   what was heard since the last start and nothing disconnected since, whatever ended the turn.
   */
  lemma ControllerOpenIff(score: E.Detector, w: World, events: seq<Event>, at: nat -> World)
    requires Initial(w) && at == Trace(score, w, events)
    ensures Run(score, w, events).coord.ctl.InTurn()
      <==> exists j :: 0 <= j < |events| && OpenSince(score, at, events, j, |events|)
  {
    var n := |events|;
    RunTraced(score, w, events);
    if at(n).coord.ctl.InTurn() {
      var j := OpenHasStart(score, at, events, n);
      LastStartFollows(score, at, events, j, n);
      assert OpenSince(score, at, events, j, n);
    }
    forall j | 0 <= j < n && OpenSince(score, at, events, j, n) ensures at(n).coord.ctl.InTurn() {
      LastStartFollows(score, at, events, j, n);
    }
  }

  /** So an idle, connected coordinator refuses a request exactly then. */
  lemma IdleRefusesIff(score: E.Detector, w: World, events: seq<Event>, at: nat -> World, q: Request)
    requires Initial(w) && at == Trace(score, w, events)
    requires Run(score, w, events).coord.connected && !Run(score, w, events).coord.active
    ensures var r := Run(score, w, events);
            !Started(score, r.coord, q, r.dropped).0.active <==>
            exists j :: 0 <= j < |events| && OpenSince(score, at, events, j, |events|)
  {
    ControllerOpenIff(score, w, events, at);
    IdleStarts(score, Run(score, w, events), q);
  }

  lemma IdleStarts(score: E.Detector, r: World, q: Request)
    requires r.coord.connected && !r.coord.active
    ensures Started(score, r.coord, q, r.dropped).0.active <==> !r.coord.ctl.InTurn()
  {
    if CanStart(r.coord) {
      HistoryKeepsFields(score, Opened(r.coord, q, r.dropped), r.coord.history);
    }
  }
}

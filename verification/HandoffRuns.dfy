/** Runs of the hand-off on which stronger claims fail. */
module HandoffRuns {
  import opened Wrappers
  import opened Int64
  import opened Pcm
  import opened Turns
  import opened Handoff
  import E = Endpointing

  /** A turn without speech ends after a millisecond. */
  const HASTY := E.Config(1.0, 1, 1, 1, 60_000)

  const FIRST := World([], [], 0, false,
      Coord(E.Ctl([], HASTY, None, E.Idle, HASTY, 0, 0, 0), false, false, false, 0, [], 0, Turn(0, 0, [], None), 0),
                       0, [], [], [], [], [], [])

  /** A millisecond of silence. */
  function Quiet(): (xs: seq<Sample>)
    ensures |xs| == 16
  {
    seq(16, _ => 0)
  }

  function Silence(heard: seq<seq<int>>): real {
    0.0
  }

  /** A property of states that every event keeps. */
  ghost predicate Closed(reach: World -> bool) {
    forall w: World, e: Event {:trigger Step(Silence, w, e)} :: reach(w) && (e.Ask? ==> Sound(e.request, w.stream)) ==>
        reach(Step(Silence, w, e))
  }

  ghost predicate ReachedBy(events: seq<Event>, w: World) {
    Honest(Silence, FIRST, events) && w == Run(Silence, FIRST, events)
  }

  /** Some run of honest requests from the beginning ends here. */
  ghost predicate Reachable(w: World) {
    exists events :: ReachedBy(events, w)
  }

  lemma ReachableIsClosed() returns (reach: World -> bool)
    ensures Closed(reach) && reach(FIRST) && forall w :: reach(w) ==> Reachable(w)
  {
    reach := (w: World) => Reachable(w);
    assert ReachedBy([], FIRST);
    forall w: World, e: Event | reach(w) && (e.Ask? ==> Sound(e.request, w.stream)) ensures reach(Step(Silence, w, e)) {
      var events :| ReachedBy(events, w);
      var more := events + [e];
      assert more[..|events|] == events;
      forall k | 0 <= k < |more| && more[k].Ask? ensures Sound(more[k].request, Run(Silence, FIRST, more[..k]).stream) {
        assert k < |events| ==> more[..k] == events[..k] && more[k] == events[k];
      }
      assert ReachedBy(more, Step(Silence, w, e));
    }
  }

  lemma Go(reach: World -> bool, w: World, e: Event) returns (w': World)
    requires Closed(reach) && reach(w) && (e.Ask? ==> Sound(e.request, w.stream))
    ensures w' == Step(Silence, w, e) && reach(w')
  {
    w' := Step(Silence, w, e);
  }

  /** A millisecond of silence ends a turn that has just begun. */
  lemma QuietEnds(ctl: E.Ctl)
    requires ctl.state.WaitingForSpeech? && ctl.turn == HASTY && ctl.elapsed == 0 && ctl.pending.None?
    ensures var (d, r) := E.Observed(Silence, ctl, Quiet());
            r == Some(E.NoSpeech) && d.state.Completed? && d.config == ctl.config && d.pending.None?
  {
    assert DurationOf(16, RATE) == 1_000_000;
    assert E.Ns(1) == 1_000_000 && E.Ns(60_000) == 60_000_000_000;
  }

  function At(k: nat): Frame {
    Frame(16 * k, Quiet())
  }

  function Ctl(heard: seq<seq<int>>): E.Ctl {
    FIRST.coord.ctl.(heard := heard)
  }

  /** An idle coordinator remembers a frame. */
  lemma IdleTakes(c: Coord, f: Frame, dropped: nat)
    requires !c.active && !c.ctl.InTurn() && c.historySize + |f.samples| <= HISTORY_SAMPLES
    ensures Observed(Silence, c, f, dropped)
         == (c.(nextOffset := f.End(), history := c.history + [f], historySize := c.historySize + |f.samples|,
                ctl := c.ctl.(heard := c.ctl.heard + [f.samples])), None)
  {
  }

  /** One frame is captured and remembered. */
  lemma Hear(reach: World -> bool, w: World) returns (w': World)
    requires Closed(reach) && reach(w)
    requires w.queue == [] && !w.closed && !w.coord.active && !w.coord.ctl.InTurn() && w.coord.historySize <= 16
    ensures reach(w')
    ensures var f, c := Frame(|w.stream|, Quiet()), w.coord;
            w' == w.(stream := w.stream + Quiet(),
                     coord := c.(nextOffset := f.End(), history := c.history + [f], historySize := c.historySize + 16,
                                 ctl := c.ctl.(heard := c.ctl.heard + [Quiet()])))
  {
    w' := Go(reach, w, Capture(Quiet()));
    assert w'.queue == [Frame(|w.stream|, Quiet())];
    IdleTakes(w.coord, Frame(|w.stream|, Quiet()), w.dropped);
    w' := Go(reach, w', TakeFrame);
  }

  /** Two frames are remembered and the third is queued. */
  lemma Remember(reach: World -> bool) returns (w: World)
    requires Closed(reach) && reach(FIRST)
    ensures reach(w)
    ensures w.queue == [At(2)] && w.handing == [] && w.finishing == [] && w.sending == [] && w.triggers == []
    ensures w.turns == 0 && w.dropped == 0 && !w.closed && |w.stream| == 48
    ensures CanStart(w.coord) && !w.coord.pending && w.coord.history == [At(0), At(1)]
    ensures w.coord.ctl.config == HASTY && w.coord.ctl.pending.None?
  {
    w := FIRST;
    w := Go(reach, w, Connect(true));
    w := Hear(reach, w);
    assert w.coord.history == [At(0)] && w.coord.ctl == Ctl([Quiet()]);
    w := Hear(reach, w);
    assert w.coord.history == [At(0), At(1)] && w.coord.ctl == Ctl([Quiet(), Quiet()]);
    w := Go(reach, w, Capture(Quiet()));
    assert w.queue == [At(2)] && w.stream == Quiet() + Quiet() + Quiet();
  }

  /** Asks for a turn that begins at a position, without a pre-roll, and takes the trigger. */
  lemma Begin(reach: World -> bool, w: World, offset: nat) returns (w': World)
    requires Closed(reach) && reach(w)
    requires w.coord.connected && !w.coord.active && !w.coord.pending && !w.closed
    requires w.sending == [] && w.triggers == [] && offset <= |w.stream|
    ensures reach(w')
    ensures var q := Request(0, [], offset);
            var turn := if CanStart(w.coord) then w.turns + 1 else w.turns;
            var (c, stop) := Started(Silence, w.coord, q, w.dropped);
            w' == w.(coord := c, turns := turn, finishing := Launch(w.finishing, stop, turn))
  {
    w' := Go(reach, w, Ask(Request(0, [], offset)));
    w' := Go(reach, w', Send(0));
    assert w'.triggers == [Request(0, [], offset)] && w'.sending == [];
    w' := Go(reach, w', TakeTrigger);
    assert Started(Silence, w.coord.(pending := true), Request(0, [], offset), w.dropped)
        == Started(Silence, w.coord, Request(0, [], offset), w.dropped) by {
      assert Opened(w.coord.(pending := true), Request(0, [], offset), w.dropped)
          == Opened(w.coord, Request(0, [], offset), w.dropped);
    }
  }

  lemma AppendTwo(c: Coord, f: Frame, g: Frame)
    ensures AppendedAll(Silence, c, [f, g])
         == var (d, stop) := Appended(Silence, c, f); if stop.Some? then (d, stop) else Appended(Silence, d, g)
  {
    assert [f, g][..1] == [f] && [f][..0] == [];
    assert AppendedAll(Silence, c, []) == (c, None);
    assert AppendedAll(Silence, c, [f]) == Appended(Silence, c, f);
  }

  lemma FirstFrameEnds(c: Coord)
    requires c.ctl.state.WaitingForSpeech? && c.ctl.turn == HASTY && c.ctl.elapsed == 0 && c.ctl.pending.None?
      && c.nextOffset == 0
    ensures var (d, stop) := Appended(Silence, c, At(0));
            && stop == Some(Endpoint(E.NoSpeech))
            && d == c.(ctl := d.ctl, nextOffset := 16, turn := c.turn.(pcm := c.turn.pcm + [Encode(Quiet())]))
            && d.ctl.state.Completed? && d.ctl.config == c.ctl.config && d.ctl.pending.None?
  {
    QuietEnds(c.ctl);
    assert Quiet()[0..] == Quiet();
  }

  lemma StartsAndStops(c: Coord) returns (d: Coord)
    requires CanStart(c) && c.ctl.config == HASTY && c.ctl.pending.None? && c.history == [At(0), At(1)]
    ensures Started(Silence, c, Request(0, [], 0), 0) == (d, Some(Endpoint(E.NoSpeech)))
    ensures d.active && d.connected && !d.pending && d.droppedAt == 0 && d.nextOffset == 16
    ensures d.turn.pcm == [Encode(Quiet())] && d.history == c.history && !d.ctl.InTurn()
  {
    var o := Opened(c, Request(0, [], 0), 0);
    FirstFrameEnds(o);
    AppendTwo(o, At(0), At(1));
    d := Started(Silence, c, Request(0, [], 0), 0).0;
  }

  /** A turn that is stopped as it starts. */
  lemma BeginStopped(reach: World -> bool, w: World, d: Coord) returns (w': World)
    requires Closed(reach) && reach(w)
    requires CanStart(w.coord) && !w.coord.pending && !w.closed && w.sending == [] && w.triggers == [] && w.dropped == 0
    requires Started(Silence, w.coord, Request(0, [], 0), 0) == (d, Some(Endpoint(E.NoSpeech)))
    ensures reach(w')
    ensures w' == w.(coord := d, turns := w.turns + 1,
      finishing := w.finishing + [Ending(Endpoint(E.NoSpeech), w.turns + 1)])
  {
    w' := Begin(reach, w, 0);
  }

  lemma BeginEarly(reach: World -> bool, w: World) returns (w': World)
    requires Closed(reach) && reach(w)
    requires CanStart(w.coord) && !w.coord.pending && !w.closed && w.sending == [] && w.triggers == [] && w.dropped == 0
    requires w.coord.ctl.config == HASTY && w.coord.ctl.pending.None? && w.coord.history == [At(0), At(1)]
    ensures reach(w')
    ensures w' == w.(coord := w'.coord, turns := w.turns + 1,
      finishing := w.finishing + [Ending(Endpoint(E.NoSpeech), w.turns + 1)])
    ensures var c := w'.coord;
            && c.active && c.connected && !c.pending && c.droppedAt == 0 && c.nextOffset == 16
            && c.turn.pcm == [Encode(Quiet())] && c.history == w.coord.history && !c.ctl.InTurn()
  {
    var d := StartsAndStops(w.coord);
    w' := BeginStopped(reach, w, d);
  }

  /** The queued frame overruns a turn that has been stopped, and that ending runs first. */
  lemma Overtakes(reach: World -> bool, w: World, first: Ending) returns (w': World)
    requires Closed(reach) && reach(w)
    requires w.queue == [At(2)] && w.finishing == [first] && !w.closed
    requires w.coord.active && w.coord.connected && w.coord.droppedAt == w.dropped && w.coord.nextOffset == 16
    ensures reach(w')
    ensures var turn := w.coord.turn.(reason := Some(CaptureOverrun));
            w' == w.(queue := [], finishing := [first], coord := w.coord.(active := false, turn := turn),
                handing := w.handing + [turn])
  {
    w' := Go(reach, w, TakeFrame);
    assert w'.finishing == [first, Ending(CaptureOverrun, w.turns)] && w'.queue == [];
    w' := Go(reach, w', RunFinish(1));
    assert w'.finishing == [first];
  }

  /** A remembered frame stops a turn as it starts, and the queued frame overtakes it. */
  lemma Overtaken(reach: World -> bool) returns (w: World)
    requires Closed(reach) && reach(FIRST)
    ensures reach(w)
    ensures |w.handing| == 1 && w.handing[0].pcm == [Encode(Quiet())] && w.handing[0].reason == Some(CaptureOverrun)
    ensures w.finishing == [Ending(Endpoint(E.NoSpeech), 1)] && w.turns == 1 && w.dropped == 0 && !w.closed
    ensures |w.stream| == 48 && w.sending == [] && w.triggers == [] && w.coord.history == [At(0), At(1)]
    ensures CanStart(w.coord) && !w.coord.pending
  {
    w := Remember(reach);
    w := BeginEarly(reach, w);
    w := Overtakes(reach, w, Ending(Endpoint(E.NoSpeech), 1));
  }

  /**
   With nothing dropped, a turn that a remembered frame ended for want of speech is handed over as
   an overrun, and the ending left over then ends the next turn before any audio.
   */
  lemma OverrunWithoutDrop() returns (r: World)
    ensures Reachable(r)
    ensures r.dropped == 0 && |r.handing| == 2 && r.finishing == []
            && r.handing[0].pcm == [Encode(Quiet())] && r.handing[0].reason == Some(CaptureOverrun)
            && r.handing[1].pcm == [] && r.handing[1].reason == Some(Endpoint(E.NoSpeech))
  {
    var reach := ReachableIsClosed();
    var w := Overtaken(reach);
    var c := Opened(w.coord, Request(0, [], 48), 0);
    AppendTwo(c, At(0), At(1));
    w := Begin(reach, w, 48);
    assert w.coord == c && w.finishing == [Ending(Endpoint(E.NoSpeech), 1)];
    r := Go(reach, w, RunFinish(0));
  }

  /** A turn whose first frame is queued. */
  lemma Speaking(reach: World -> bool) returns (w: World)
    requires Closed(reach) && reach(FIRST)
    ensures reach(w)
    ensures w.handing == [] && w.finishing == [] && w.queue == [At(0)] && w.dropped == 0 && !w.closed && w.turns == 1
    ensures |w.stream| == 16 && w.sending == [] && w.triggers == []
    ensures w.coord == Opened(FIRST.coord.(connected := true), Request(0, [], 0), 0)
  {
    w := FIRST;
    w := Go(reach, w, Connect(true));
    w := Begin(reach, w, 0);
    w := Go(reach, w, Capture(Quiet()));
  }

  lemma TakesAndStops(c: Coord)
    requires c == Opened(FIRST.coord.(connected := true), Request(0, [], 0), 0)
    ensures var (d, stop) := Observed(Silence, c, At(0), 0);
            && stop == Some(Endpoint(E.NoSpeech))
            && d.active && d.connected && !d.pending && d.history == [] && !d.ctl.InTurn()
  {
    FirstFrameEnds(c);
  }

  /** A turn that ended at its first frame, which is therefore not remembered. */
  lemma Spoken(reach: World -> bool) returns (w: World)
    requires Closed(reach) && reach(FIRST)
    ensures reach(w)
    ensures |w.handing| == 1 && w.handing[0].reason == Some(Endpoint(E.NoSpeech))
    ensures w.finishing == [] && w.queue == [] && w.dropped == 0 && !w.closed && w.turns == 1
    ensures |w.stream| == 16 && w.sending == [] && w.triggers == [] && w.coord.history == []
    ensures CanStart(w.coord) && !w.coord.pending
  {
    w := Speaking(reach);
    TakesAndStops(w.coord);
    w := Go(reach, w, TakeFrame);
    assert w.finishing == [Ending(Endpoint(E.NoSpeech), 1)];
    w := Go(reach, w, RunFinish(0));
  }

  /**
   With nothing dropped, a turn whose pre-roll ends inside the turn before it overruns at its first
   frame; its ending leaves the controller open, and the request after it is refused.
   */
  lemma GapAfterTurn() returns (r: World)
    ensures Reachable(r)
    ensures r.dropped == 0 && |r.handing| == 2 && r.finishing == []
            && r.handing[0].reason == Some(Endpoint(E.NoSpeech))
            && r.handing[1].base == 0 && r.handing[1].pcm == [] && r.handing[1].reason == Some(CaptureOverrun)
            && r.coord.connected && !r.coord.active && !r.coord.pending && r.coord.ctl.InTurn()
            && forall q, dropped :: !Started(Silence, r.coord, q, dropped).0.active
  {
    var reach := ReachableIsClosed();
    var w := Spoken(reach);
    w := Begin(reach, w, 0);
    assert w.coord.nextOffset == 0 && w.coord.ctl.InTurn() && w.finishing == [];
    w := Go(reach, w, Capture(Quiet()));
    assert w.queue == [At(1)];
    w := Go(reach, w, TakeFrame);
    assert w.finishing == [Ending(CaptureOverrun, 2)];
    r := Go(reach, w, RunFinish(0));
  }
}

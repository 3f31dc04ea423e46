/** What becomes of every turn that is started, and what the endpoint detector hears. */
module HandoffTurns {
  import opened Wrappers
  import opened Pcm
  import opened Turns
  import opened Handoff
  import E = Endpointing

  // ---------------------------------------------------------------- no turn is lost silently

  /** Turns in progress, on their way to the transport, or with it. */
  function InHand(w: World): nat {
    (if w.coord.active then 1 else 0) + |w.handing| + |w.done| + |w.delivered|
  }

  /**
   Turns an event gives up: the one in progress or those waiting when the connection goes, or one
   too many waiting.
   */
  function GivenUp(w: World, e: Event): nat {
    match e
    case Connect(on) => if !on && w.coord.active then 1 else 0
    case HandOver(i) => if i < |w.handing| && w.done != [] then 1 else 0
    case DropDone => if w.coord.connected then 0 else |w.done|
    case Deliver => if w.coord.connected then 0 else |w.done|
    case _ => 0
  }

  function Lost(score: E.Detector, w: World, events: seq<Event>): nat {
    if events == [] then 0 else
      var before := events[..|events| - 1];
      Lost(score, w, before) + GivenUp(Run(score, w, before), events[|events| - 1])
  }

  /** One event: a turn is started for each start, and leaves only where it is given up. */
  ghost predicate Counts(w: World, e: Event, d: World) {
    d.turns - w.turns == InHand(d) + GivenUp(w, e) - InHand(w)
  }

  lemma StepCounts(score: E.Detector, w: World, e: Event)
    requires Claims(w)
    ensures Counts(w, e, Step(score, w, e))
  {
    match e
    case TakeTrigger =>
      if w.triggers != [] && !w.closed {
        StartClaims(score, w.coord, w.triggers[0], w.dropped);
      }
    case TakeFrame =>
    case RunFinish(i) => FinishCounts(score, w, i);
    case HandOver(i) =>
    case _ =>
  }

  lemma FinishCounts(score: E.Detector, w: World, i: nat)
    requires Claims(w)
    ensures Counts(w, RunFinish(i), Step(score, w, RunFinish(i)))
  {
  }

  /** On every run each turn that was started is in hand or was given up, and for one of those reasons. */
  lemma {:induction false} TurnsConserved(score: E.Detector, w: World, events: seq<Event>)
    requires Initial(w) && !w.coord.pending && w.turns == 0
    ensures var d := Run(score, w, events); d.turns == InHand(d) + Lost(score, w, events)
  {
    if events != [] {
      var before, e := events[..|events| - 1], events[|events| - 1];
      TurnsConserved(score, w, before);
      AlwaysClaims(score, w, before);
      StepCounts(score, Run(score, w, before), e);
    }
  }

  // ---------------------------------------------------------------- what an ending hands over

  /**
   An ending that finds its turn in progress hands over that turn, with its reason, and leaves the
   coordinator idle.
   */
  lemma EndingHandsOver(score: E.Detector, w: World, events: seq<Event>, i: nat)
    requires Initial(w) && !w.coord.pending
    requires var v := Run(score, w, events); i < |v.finishing|
    ensures var v := Run(score, w, events);
            var d := Step(score, v, RunFinish(i));
            && !d.coord.active
            && d.handing == v.handing
               + (if v.coord.active then [v.coord.turn.(reason := Some(v.finishing[i].stop))] else [])
  {
    AlwaysClaims(score, w, events);
    FinishHandsOver(score, Run(score, w, events), i);
  }

  lemma FinishHandsOver(score: E.Detector, v: World, i: nat)
    requires Claims(v) && i < |v.finishing|
    ensures var d := Step(score, v, RunFinish(i));
            && !d.coord.active
            && d.handing == v.handing
               + (if v.coord.active then [v.coord.turn.(reason := Some(v.finishing[i].stop))] else [])
  {
  }

  // ---------------------------------------------------------------- what the detector hears

  /** The pieces, decoded, are what has been heard after the first n. */
  ghost predicate SameAudio(pieces: seq<seq<Byte>>, heard: seq<seq<int>>, n: nat) {
    |heard| == n + |pieces| && forall i {:trigger pieces[i]} :: 0 <= i < |pieces| ==> Decode(pieces[i]) == heard[n + i]
  }

  /** The turn is its pre-roll and then exactly what has been heard since. */
  ghost predicate Hears(c: Coord, q: Request, before: seq<seq<int>>) {
    && before <= c.ctl.heard
    && (c.active ==> Head(q) <= c.turn.pcm && SameAudio(c.turn.pcm[|Head(q)|..], c.ctl.heard, |before|))
  }

  lemma SameNext(pieces: seq<seq<Byte>>, heard: seq<seq<int>>, n: nat, more: seq<Sample>)
    requires SameAudio(pieces, heard, n)
    ensures SameAudio(pieces + [Encode(more)], heard + [more], n)
  {
    DecodeEncode(more);
  }

  lemma ExtendHears(score: E.Detector, c: Coord, rest: seq<Sample>, q: Request, before: seq<seq<int>>)
    requires Hears(c, q, before)
    ensures Hears(Extended(score, c, rest).0, q, before)
  {
    if c.active {
      SameNext(c.turn.pcm[|Head(q)|..], c.ctl.heard, |before|, rest);
      assert (c.turn.pcm + [Encode(rest)])[|Head(q)|..] == c.turn.pcm[|Head(q)|..] + [Encode(rest)];
    }
  }

  lemma AppendHears(score: E.Detector, c: Coord, f: Frame, q: Request, before: seq<seq<int>>)
    requires Hears(c, q, before)
    ensures Hears(Appended(score, c, f).0, q, before)
  {
    if f.End() > c.nextOffset && f.offset <= c.nextOffset {
      ExtendHears(score, c, f.samples[c.nextOffset - f.offset..], q, before);
    }
  }

  lemma {:induction false} HistoryHears(score: E.Detector, c: Coord, fs: seq<Frame>, q: Request,
      before: seq<seq<int>>)
    requires Hears(c, q, before)
    ensures Hears(AppendedAll(score, c, fs).0, q, before)
  {
    if fs != [] {
      HistoryHears(score, c, fs[..|fs| - 1], q, before);
      AppendHears(score, AppendedAll(score, c, fs[..|fs| - 1]).0, fs[|fs| - 1], q, before);
    }
  }

  lemma StartHears(score: E.Detector, w: World)
    requires Starts(w, TakeTrigger)
    ensures Hears(Step(score, w, TakeTrigger).coord, w.triggers[0], w.coord.ctl.heard)
  {
    OpenedHears(w.coord, w.triggers[0], w.dropped);
    HistoryHears(score, Opened(w.coord, w.triggers[0], w.dropped), w.coord.history, w.triggers[0], w.coord.ctl.heard);
  }

  lemma OpenedHears(c: Coord, q: Request, dropped: nat)
    ensures Hears(Opened(c, q, dropped), q, c.ctl.heard)
  {
  }

  lemma StepHears(score: E.Detector, w: World, e: Event, q: Request, before: seq<seq<int>>)
    requires Hears(w.coord, q, before) && !Starts(w, e)
    ensures Hears(Step(score, w, e).coord, q, before)
  {
    if e.TakeFrame? {
      if Takes(w, e) && w.coord.active {
        AppendHears(score, w.coord, w.queue[0], q, before);
      }
    }
  }

  /** Event j starts a turn and none of the first n after it does. */
  ghost predicate NewestStart(at: nat -> World, events: seq<Event>, j: nat, n: nat)
    requires j < n <= |events|
  {
    Starts(at(j), events[j]) && forall k: nat {:trigger at(k)} {:trigger events[k]} :: j < k < n ==>
      !Starts(at(k), events[k])
  }

  /**
   On every run, while a turn is in progress: its audio is the pre-roll of its request and then, piece by
   piece, exactly what the detector has heard since the start.
   */
  lemma {:induction false} DetectorHearsTurn(score: E.Detector, at: nat -> World, events: seq<Event>, j: nat, n: nat)
    requires Traced(score, at, events) && j < n <= |events| && NewestStart(at, events, j, n)
    ensures Hears(at(n).coord, at(j).triggers[0], at(j).coord.ctl.heard)
  {
    assert Follows(score, at, events, n - 1);
    if j == n - 1 {
      StartHears(score, at(j));
    } else {
      DetectorHearsTurn(score, at, events, j, n - 1);
      StepHears(score, at(n - 1), events[n - 1], at(j).triggers[0], at(j).coord.ctl.heard);
    }
  }

  /** The frames read by the events from m up to n. */
  function Read(at: nat -> World, events: seq<Event>, m: nat, n: nat): seq<seq<int>>
    requires m <= n <= |events|
    decreases n - m
  {
    if m == n then [] else
      Read(at, events, m, n - 1) + (if Takes(at(n - 1), events[n - 1]) then [at(n - 1).queue[0].samples] else [])
  }

  lemma IdleStep(score: E.Detector, w: World, e: Event)
    requires !w.coord.active && !Starts(w, e)
    ensures var d := Step(score, w, e);
            && d.coord.ctl.heard == w.coord.ctl.heard + (if Takes(w, e) then [w.queue[0].samples] else [])
            && d.coord.nextOffset == (if Takes(w, e) then w.queue[0].End() else w.coord.nextOffset)
  {
  }

  /** Between turns the detector hears every frame that is read, whole and in order. */
  lemma {:induction false} DetectorHearsIdle(score: E.Detector, at: nat -> World, events: seq<Event>, m: nat, n: nat)
    requires Traced(score, at, events) && m <= n <= |events|
    requires forall k: nat {:trigger at(k)} {:trigger events[k]} :: m <= k < n ==>
               !at(k).coord.active && !Starts(at(k), events[k])
    ensures at(n).coord.ctl.heard == at(m).coord.ctl.heard + Read(at, events, m, n)
  {
    if m < n {
      DetectorHearsIdle(score, at, events, m, n - 1);
      assert Follows(score, at, events, n - 1);
      IdleStep(score, at(n - 1), events[n - 1]);
    }
  }
}

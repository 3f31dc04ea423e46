/** Which of the turns handed over can be sent. */
module HandoffSend {
  import opened Wrappers
  import opened Pcm
  import opened Turns
  import opened Handoff
  import opened HandoffJoin
  import E = Endpointing
  import G = Gateway
  import C = TurnCapacity

  /** A piece of one captured frame. */
  predicate Small(piece: seq<Byte>) {
    |piece| % 2 == 0 && |piece| <= 2 * FRAME
  }

  ghost predicate AllSmall(pieces: seq<seq<Byte>>) {
    forall i {:trigger pieces[i]} :: 0 <= i < |pieces| ==> Small(pieces[i])
  }

  /** The turn is the request's pre-roll in one piece, and then pieces of frames. */
  ghost predicate Assembled(t: Turn, q: Request) {
    && t.trigger == q.trigger && t.base == q.offset
    && Head(q) <= t.pcm && AllSmall(t.pcm[|Head(q)|..])
  }

  ghost predicate Made(t: Turn, asked: set<Request>) {
    exists q :: q in asked && Assembled(t, q)
  }

  ghost predicate AllMade(ts: seq<Turn>, asked: set<Request>) {
    forall i {:trigger ts[i]} :: 0 <= i < |ts| ==> Made(ts[i], asked)
  }

  ghost predicate Built(w: World, asked: set<Request>) {
    && AllAsked(w.sending, asked) && AllAsked(w.triggers, asked)
    && (w.coord.active ==> Made(w.coord.turn, asked))
    && AllMade(w.handing, asked) && AllMade(w.done, asked) && AllMade(w.delivered, asked)
  }

  lemma AppendAssembles(score: E.Detector, c: Coord, f: Frame, q: Request)
    requires Assembled(c.turn, q) && |f.samples| <= FRAME
    ensures Assembled(Appended(score, c, f).0.turn, q)
  {
    if f.End() > c.nextOffset && f.offset <= c.nextOffset {
      var rest := f.samples[c.nextOffset - f.offset..];
      var tail := c.turn.pcm[|Head(q)|..];
      assert (c.turn.pcm + [Encode(rest)])[|Head(q)|..] == tail + [Encode(rest)];
    }
  }

  lemma {:induction false} HistoryAssembles(score: E.Detector, c: Coord, fs: seq<Frame>, q: Request)
    requires Assembled(c.turn, q) && Short(fs)
    ensures Assembled(AppendedAll(score, c, fs).0.turn, q)
  {
    if fs != [] {
      var before := fs[..|fs| - 1];
      HistoryAssembles(score, c, before, q);
      AppendAssembles(score, AppendedAll(score, c, before).0, fs[|fs| - 1], q);
    }
  }

  lemma StartAssembles(score: E.Detector, c: Coord, q: Request, dropped: nat)
    requires CanStart(c) && Short(c.history)
    ensures Assembled(Started(score, c, q, dropped).0.turn, q)
  {
    assert Opened(c, q, dropped).turn.pcm == Head(q);
    assert Head(q)[|Head(q)|..] == [];
    HistoryAssembles(score, Opened(c, q, dropped), c.history, q);
  }

  lemma ObserveAssembles(score: E.Detector, c: Coord, f: Frame, dropped: nat, asked: set<Request>)
    requires c.active && Made(c.turn, asked) && |f.samples| <= FRAME
    ensures Made(Observed(score, c, f, dropped).0.turn, asked)
  {
    var q :| q in asked && Assembled(c.turn, q);
    AppendAssembles(score, c, f, q);
    assert q in asked && Assembled(Observed(score, c, f, dropped).0.turn, q);
  }

  lemma BuiltMore(w: World, asked: set<Request>, more: set<Request>)
    requires Built(w, asked) && asked <= more
    ensures Built(w, more)
  {
    forall t: Turn | Made(t, asked) ensures Made(t, more) {
      var q :| q in asked && Assembled(t, q);
      assert q in more;
    }
  }

  lemma BuiltFinish(score: E.Detector, w: World, i: nat, asked: set<Request>)
    requires Built(w, asked)
    ensures Built(Step(score, w, RunFinish(i)), asked)
  {
    if i < |w.finishing| && w.coord.active {
      var turn := w.coord.turn.(reason := Some(w.finishing[i].stop));
      var q :| q in asked && Assembled(w.coord.turn, q);
      assert Assembled(turn, q);
    }
  }

  lemma BuiltStep(score: E.Detector, w: World, e: Event, asked: set<Request>)
    requires Brief(w) && Built(w, asked) && (e.Ask? ==> e.request in asked)
    ensures Built(Step(score, w, e), asked)
  {
    match e
    case TakeTrigger =>
      if Starts(w, e) {
        StartAssembles(score, w.coord, w.triggers[0], w.dropped);
        assert w.triggers[0] in asked;
      }
    case TakeFrame =>
      if w.queue != [] && w.coord.active {
        ObserveAssembles(score, w.coord, w.queue[0], w.dropped, asked);
      }
    case RunFinish(i) => BuiltFinish(score, w, i, asked);
    case _ =>
  }

  lemma {:induction false} AlwaysBuilt(score: E.Detector, w: World, events: seq<Event>)
    requires Initial(w) && SmallFrames(events)
    ensures Built(Run(score, w, events), Asked(events))
  {
    if events != [] {
      var before := events[..|events| - 1];
      AlwaysBrief(score, w, before);
      AlwaysBuilt(score, w, before);
      BuiltMore(Run(score, w, before), Asked(before), Asked(events));
      BuiltStep(score, Run(score, w, before), events[|events| - 1], Asked(events));
    }
  }

  lemma AssembledSendable(t: Turn, q: Request)
    requires Assembled(t, q)
    ensures G.Sendable(t.pcm) <==> |q.preRoll| <= 32_768
  {
    var h := Head(q);
    C.PreRollFits(q.preRoll);
    assert t.pcm == h + t.pcm[|h|..];
    if |q.preRoll| <= 32_768 {
      forall i | 0 <= i < |t.pcm| ensures |t.pcm[i]| <= G.MAX_FRAME && |t.pcm[i]| % 2 == 0 {
        if i >= |h| {
          assert Small(t.pcm[|h|..][i - |h|]);
        }
      }
    } else {
      assert |t.pcm[0]| > G.MAX_FRAME;
    }
  }

  /** Every turn handed over answers a request, and can be sent exactly when that request's pre-roll fits one frame. */
  lemma DeliveredSendableIff(score: E.Detector, w: World, events: seq<Event>, i: nat) returns (q: Request)
    requires Initial(w) && SmallFrames(events) && i < |Run(score, w, events).delivered|
    ensures var t := Run(score, w, events).delivered[i];
            && q in Asked(events) && t.trigger == q.trigger && t.base == q.offset
            && (G.Sendable(t.pcm) <==> |q.preRoll| <= 32_768)
  {
    AlwaysBuilt(score, w, events);
    var t := Run(score, w, events).delivered[i];
    assert Made(t, Asked(events));
    q :| q in Asked(events) && Assembled(t, q);
    AssembledSendable(t, q);
  }
}

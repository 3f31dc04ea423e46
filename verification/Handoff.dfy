/** Every interleaving of capture, wake requests, the coordinator and its asynchronous turn endings. */
module Handoff {
  import opened Wrappers
  import opened Pcm
  import opened Rows
  import opened Turns
  import E = Endpointing

  const QUEUE_DEPTH: nat := 32

  /** A launched ending of a turn; turn says which one it was launched for, which the code does not record. */
  datatype Ending = Ending(stop: Stop, turn: nat)

  /**
   The coordinator with everything around it. sending holds triggers between their two locked
   halves, finishing the endings that have been launched, handing the turns about to be offered;
   turns counts the turns started so far.
   */
  datatype World = World(stream: seq<Sample>, queue: seq<Frame>, dropped: nat, closed: bool, coord: Coord, turns: nat,
                         sending: seq<Request>, triggers: seq<Request>, finishing: seq<Ending>,
                         handing: seq<Turn>, done: seq<Turn>, delivered: seq<Turn>)

  datatype Event =
    | Capture(samples: seq<Sample>)
    | Ask(request: Request)
    | Send(i: nat)
    | TakeTrigger
    | TakeFrame
    | CloseStream
    | RunFinish(i: nat)
    | HandOver(i: nat)
    | DropDone
    | DropTrigger
    | Deliver
    | Connect(connected: bool)
    | Configure(config: E.Config)

  function Without<T>(s: seq<T>, i: nat): seq<T>
    requires i < |s|
  {
    s[..i] + s[i + 1..]
  }

  function Launch(endings: seq<Ending>, stop: Option<Stop>, turn: nat): seq<Ending> {
    if stop.Some? then endings + [Ending(stop.value, turn)] else endings
  }

  /** Whether an event starts a turn. */
  predicate Starts(w: World, e: Event) {
    e.TakeTrigger? && w.triggers != [] && !w.closed && CanStart(w.coord)
  }

  /** Whether an event is the coordinator reading a frame. */
  predicate Takes(w: World, e: Event) {
    e.TakeFrame? && w.queue != [] && !w.closed
  }

  function Step(score: E.Detector, w: World, e: Event): World {
    match e
    case Capture(xs) =>
      var f := Frame(|w.stream|, xs);
      if |w.queue| < QUEUE_DEPTH then w.(stream := w.stream + xs, queue := w.queue + [f])
      else w.(stream := w.stream + xs, dropped := w.dropped + 1)
    case Ask(q) =>
      if Free(w.coord) then
        w.(coord := w.coord.(pending := true), sending := w.sending + [q])
      else w
    case Send(i) =>
      if i >= |w.sending| then w
      else if |w.triggers| < 2 then w.(sending := Without(w.sending, i), triggers := w.triggers + [w.sending[i]])
      else w.(sending := Without(w.sending, i), coord := w.coord.(pending := false))
    case TakeTrigger =>
      if w.triggers == [] || w.closed then w else
        var turn := if CanStart(w.coord) then w.turns + 1 else w.turns;
        var (c, stop) := Started(score, w.coord, w.triggers[0], w.dropped);
        w.(triggers := w.triggers[1..], coord := c, turns := turn, finishing := Launch(w.finishing, stop, turn))
    case TakeFrame =>
      if w.queue == [] || w.closed then w else
        var (c, stop) := Observed(score, w.coord, w.queue[0], w.dropped);
        w.(queue := w.queue[1..], coord := c, finishing := Launch(w.finishing, stop, w.turns))
    case CloseStream =>
      if w.queue != [] || w.closed then w
      else w.(closed := true, finishing := Launch(w.finishing, Some(Endpoint(E.EOF)), w.turns))
    case RunFinish(i) =>
      if i >= |w.finishing| then w else
        var (c, handed) := Ended(w.coord, w.finishing[i].stop);
        w.(finishing := Without(w.finishing, i), coord := c,
            handing := w.handing + (if handed.Some? then [handed.value] else []))
    case HandOver(i) =>
      if i >= |w.handing| then w
      else w.(handing := Without(w.handing, i), done := if w.done == [] then [w.handing[i]] else w.done)
    case DropDone => if w.coord.connected then w else w.(done := [])
    case DropTrigger => if w.triggers == [] || w.coord.connected then w else w.(triggers := w.triggers[1..])
    case Deliver => w.(done := [], delivered := if w.coord.connected then w.delivered + w.done else w.delivered)
    case Connect(on) => w.(coord := Linked(w.coord, on))
    case Configure(config) => w.(coord := w.coord.(ctl := E.Staged(w.coord.ctl, config)))
  }

  function Run(score: E.Detector, w: World, events: seq<Event>): World {
    if events == [] then w else Step(score, Run(score, w, events[..|events| - 1]), events[|events| - 1])
  }

  /** The states of a run, the n-th after n events. */
  function Trace(score: E.Detector, w: World, events: seq<Event>): nat -> World {
    (n: nat) => if n <= |events| then Run(score, w, events[..n]) else w
  }

  /** State n + 1 follows from state n by event n. */
  ghost predicate Follows(score: E.Detector, at: nat -> World, events: seq<Event>, n: nat)
    requires n < |events|
  {
    at(n + 1) == Step(score, at(n), events[n])
  }

  ghost predicate Traced(score: E.Detector, at: nat -> World, events: seq<Event>) {
    forall n: nat {:trigger Follows(score, at, events, n)} :: n < |events| ==> Follows(score, at, events, n)
  }

  lemma RunTraced(score: E.Detector, w: World, events: seq<Event>)
    ensures var at := Trace(score, w, events);
            Traced(score, at, events) && at(0) == w && at(|events|) == Run(score, w, events)
  {
    var at := Trace(score, w, events);
    assert events[..0] == [] && events[..|events|] == events;
    forall n: nat | n < |events| ensures Follows(score, at, events, n) {
      assert events[..n + 1][..n] == events[..n];
    }
  }

  // ---------------------------------------------------------------- what the audio is

  /** The turn's audio. */
  function Audio(t: Turn): seq<Sample> {
    Decode(Join(t.pcm))
  }

  /** The piece that a turn's pre-roll becomes, if there is any. */
  function Head(q: Request): seq<seq<Byte>> {
    if |q.preRoll| > 0 then [Encode(q.preRoll)] else []
  }

  ghost predicate IsSlice(part: seq<Sample>, stream: seq<Sample>, from: int) {
    0 <= from && from + |part| <= |stream| && part == stream[from..from + |part|]
  }

  ghost predicate FrameOk(f: Frame, stream: seq<Sample>) {
    IsSlice(f.samples, stream, f.offset)
  }

  /** The request's pre-roll is what was captured just before its end. */
  ghost predicate Sound(q: Request, stream: seq<Sample>) {
    IsSlice(q.preRoll, stream, q.offset)
  }

  /** The turn's audio is one contiguous slice of the captured stream from its base on. */
  ghost predicate TurnOk(t: Turn, stream: seq<Sample>) {
    && IsSlice(Audio(t), stream, t.base)
    && forall i {:trigger t.pcm[i]} :: 0 <= i < |t.pcm| ==> |t.pcm[i]| % 2 == 0
  }

  ghost predicate FramesOk(fs: seq<Frame>, stream: seq<Sample>) {
    forall i {:trigger fs[i]} :: 0 <= i < |fs| ==> FrameOk(fs[i], stream)
  }

  ghost predicate AllSound(qs: seq<Request>, stream: seq<Sample>) {
    forall i {:trigger qs[i]} :: 0 <= i < |qs| ==> Sound(qs[i], stream)
  }

  ghost predicate TurnsOk(ts: seq<Turn>, stream: seq<Sample>) {
    forall i {:trigger ts[i]} :: 0 <= i < |ts| ==> TurnOk(ts[i], stream)
  }

  ghost predicate CoordOk(c: Coord, stream: seq<Sample>) {
    && FramesOk(c.history, stream)
    && (c.active ==> TurnOk(c.turn, stream) && c.nextOffset == c.turn.base + |Audio(c.turn)|)
  }

  ghost predicate Inv(w: World) {
    && FramesOk(w.queue, w.stream) && CoordOk(w.coord, w.stream)
    && AllSound(w.sending, w.stream) && AllSound(w.triggers, w.stream)
    && TurnsOk(w.handing, w.stream) && TurnsOk(w.done, w.stream) && TurnsOk(w.delivered, w.stream)
  }

  // ---------------------------------------------------------------- preservation

  lemma PiecesEven(pcm: seq<seq<Byte>>)
    requires forall i {:trigger pcm[i]} :: 0 <= i < |pcm| ==> |pcm[i]| % 2 == 0
    ensures |Join(pcm)| % 2 == 0
  {
    if pcm != [] {
      PiecesEven(pcm[1..]);
    }
  }

  /** Appending an encoded piece appends its samples. */
  lemma AudioSnoc(t: Turn, xs: seq<Sample>)
    requires forall i {:trigger t.pcm[i]} :: 0 <= i < |t.pcm| ==> |t.pcm[i]| % 2 == 0
    ensures Audio(t.(pcm := t.pcm + [Encode(xs)])) == Audio(t) + xs
  {
    PiecesEven(t.pcm);
    JoinConcat(t.pcm, [Encode(xs)]);
    JoinSingle(Encode(xs));
    DecodeAppend(Join(t.pcm), Encode(xs));
    DecodeEncode(xs);
  }

  lemma JoinSingle(b: seq<Byte>)
    ensures Join([b]) == b
  {
    assert Join([b][1..]) == [];
  }

  lemma SliceGrows(part: seq<Sample>, stream: seq<Sample>, more: seq<Sample>, from: int)
    requires IsSlice(part, stream, from)
    ensures IsSlice(part, stream + more, from)
  {
  }

  /** A slice followed by the next slice is a slice. */
  lemma SliceJoin(a: seq<Sample>, b: seq<Sample>, stream: seq<Sample>, from: int)
    requires IsSlice(a, stream, from) && IsSlice(b, stream, from + |a|)
    ensures IsSlice(a + b, stream, from)
  {
  }

  lemma SliceTail(f: Frame, stream: seq<Sample>, at: int)
    requires FrameOk(f, stream) && f.offset <= at <= f.End()
    ensures IsSlice(f.samples[at - f.offset..], stream, at)
  {
  }

  lemma AppendKeeps(score: E.Detector, c: Coord, f: Frame, stream: seq<Sample>)
    requires CoordOk(c, stream) && c.active && FrameOk(f, stream)
    ensures CoordOk(Appended(score, c, f).0, stream) && Appended(score, c, f).0.active
    ensures Appended(score, c, f).0.history == c.history
  {
    if f.End() > c.nextOffset && f.offset <= c.nextOffset {
      SliceTail(f, stream, c.nextOffset);
      TurnGrows(c.turn, f.samples[c.nextOffset - f.offset..], stream);
    }
  }

  lemma TurnGrows(t: Turn, rest: seq<Sample>, stream: seq<Sample>)
    requires TurnOk(t, stream) && IsSlice(rest, stream, t.base + |Audio(t)|)
    ensures var u := t.(pcm := t.pcm + [Encode(rest)]);
            TurnOk(u, stream) && |Audio(u)| == |Audio(t)| + |rest|
  {
    AudioSnoc(t, rest);
    SliceJoin(Audio(t), rest, stream, t.base);
  }

  lemma {:induction false} AppendAllActive(score: E.Detector, c: Coord, frames: seq<Frame>, stream: seq<Sample>)
    requires CoordOk(c, stream) && c.active && FramesOk(frames, stream)
    ensures CoordOk(AppendedAll(score, c, frames).0, stream) && AppendedAll(score, c, frames).0.active
  {
    if frames != [] {
      AppendAllActive(score, c, frames[..|frames| - 1], stream);
      AppendKeeps(score, AppendedAll(score, c, frames[..|frames| - 1]).0, frames[|frames| - 1], stream);
    }
  }

  lemma OpenKeeps(c: Coord, q: Request, dropped: nat, stream: seq<Sample>)
    requires CoordOk(c, stream) && Sound(q, stream)
    ensures CoordOk(Opened(c, q, dropped), stream)
  {
    OpenAudio(q);
    assert Opened(c, q, dropped).turn == OpenTurn(q);
  }

  function OpenTurn(q: Request): Turn {
    Turn(q.trigger, q.offset, if |q.preRoll| > 0 then [Encode(q.preRoll)] else [], None)
  }

  lemma OpenAudio(q: Request)
    ensures Audio(OpenTurn(q)) == q.preRoll
    ensures forall i {:trigger OpenTurn(q).pcm[i]} :: 0 <= i < |OpenTurn(q).pcm| ==> |OpenTurn(q).pcm[i]| % 2 == 0
  {
    if |q.preRoll| > 0 {
      JoinSingle(Encode(q.preRoll));
      DecodeEncode(q.preRoll);
    } else {
      assert Join(OpenTurn(q).pcm) == [];
    }
  }

  lemma StartKeeps(score: E.Detector, c: Coord, q: Request, dropped: nat, stream: seq<Sample>)
    requires CoordOk(c, stream) && Sound(q, stream)
    ensures CoordOk(Started(score, c, q, dropped).0, stream)
  {
    if CanStart(c) {
      OpenKeeps(c, q, dropped, stream);
      AppendAllActive(score, Opened(c, q, dropped), c.history, stream);
    }
  }

  lemma {:induction false} TrimKeeps(history: seq<Frame>, size: int, stream: seq<Sample>)
    requires FramesOk(history, stream)
    ensures FramesOk(Trimmed(history, size).0, stream)
    decreases |history|
  {
    if size > HISTORY_SAMPLES && history != [] {
      TrimKeeps(history[1..], size - |history[0].samples|, stream);
    }
  }

  lemma ObserveKeeps(score: E.Detector, c: Coord, f: Frame, dropped: nat, stream: seq<Sample>)
    requires CoordOk(c, stream) && FrameOk(f, stream)
    ensures CoordOk(Observed(score, c, f, dropped).0, stream)
  {
    if !c.active {
      TrimKeeps(c.history + [f], c.historySize + |f.samples|, stream);
    } else if dropped == c.droppedAt {
      AppendKeeps(score, c, f, stream);
    }
  }

  lemma CoordGrows(c: Coord, stream: seq<Sample>, more: seq<Sample>)
    requires CoordOk(c, stream)
    ensures CoordOk(c, stream + more)
  {
    FramesGrow(c.history, stream, more);
    if c.active {
      SliceGrows(Audio(c.turn), stream, more, c.turn.base);
    }
  }

  lemma FramesGrow(fs: seq<Frame>, stream: seq<Sample>, more: seq<Sample>)
    requires FramesOk(fs, stream)
    ensures FramesOk(fs, stream + more)
  {
    forall i | 0 <= i < |fs| ensures FrameOk(fs[i], stream + more) {
      SliceGrows(fs[i].samples, stream, more, fs[i].offset);
    }
  }

  lemma SoundGrow(qs: seq<Request>, stream: seq<Sample>, more: seq<Sample>)
    requires AllSound(qs, stream)
    ensures AllSound(qs, stream + more)
  {
    forall i | 0 <= i < |qs| ensures Sound(qs[i], stream + more) {
      SliceGrows(qs[i].preRoll, stream, more, qs[i].offset);
    }
  }

  lemma TurnsGrow(ts: seq<Turn>, stream: seq<Sample>, more: seq<Sample>)
    requires TurnsOk(ts, stream)
    ensures TurnsOk(ts, stream + more)
  {
    forall i | 0 <= i < |ts| ensures TurnOk(ts[i], stream + more) {
      SliceGrows(Audio(ts[i]), stream, more, ts[i].base);
    }
  }

  lemma CaptureKeeps(score: E.Detector, w: World, xs: seq<Sample>)
    requires Inv(w)
    ensures Inv(Step(score, w, Capture(xs)))
  {
    FramesGrow(w.queue, w.stream, xs);
    CoordGrows(w.coord, w.stream, xs);
    SoundGrow(w.sending, w.stream, xs);
    SoundGrow(w.triggers, w.stream, xs);
    TurnsGrow(w.handing, w.stream, xs);
    TurnsGrow(w.done, w.stream, xs);
    TurnsGrow(w.delivered, w.stream, xs);
  }

  /** The steps that hand requests and turns on. */
  lemma MoveKeeps(score: E.Detector, w: World, e: Event)
    requires Inv(w) && (e.Ask? ==> Sound(e.request, w.stream))
    requires !e.Capture? && !e.TakeTrigger? && !e.TakeFrame? && !e.RunFinish?
    ensures Inv(Step(score, w, e))
  {
  }

  lemma FinishKeeps(score: E.Detector, w: World, i: nat)
    requires Inv(w)
    ensures Inv(Step(score, w, RunFinish(i)))
  {
    if i < |w.finishing| {
      var (c, handed) := Ended(w.coord, w.finishing[i].stop);
      assert handed.Some? ==> Audio(handed.value) == Audio(w.coord.turn);
    }
  }

  lemma StepKeeps(score: E.Detector, w: World, e: Event)
    requires Inv(w) && (e.Ask? ==> Sound(e.request, w.stream))
    ensures Inv(Step(score, w, e))
  {
    match e
    case Capture(xs) => CaptureKeeps(score, w, xs);
    case TakeTrigger =>
      if w.triggers != [] {
        StartKeeps(score, w.coord, w.triggers[0], w.dropped, w.stream);
      }
    case TakeFrame =>
      if w.queue != [] {
        ObserveKeeps(score, w.coord, w.queue[0], w.dropped, w.stream);
      }
    case RunFinish(i) => FinishKeeps(score, w, i);
    case _ => MoveKeeps(score, w, e);
  }

  // ---------------------------------------------------------------- every run

  ghost predicate Initial(w: World) {
    && w.stream == [] && w.queue == [] && w.sending == [] && w.triggers == [] && w.finishing == []
    && w.handing == [] && w.done == [] && w.delivered == []
    && w.coord.history == [] && !w.coord.active && !w.coord.ctl.InTurn() && w.coord.historySize == 0
      && w.coord.nextOffset == 0
  }

  /** Every request carries what was captured by the time it was made. */
  ghost predicate Honest(score: E.Detector, w: World, events: seq<Event>) {
    forall k {:trigger events[k]} :: 0 <= k < |events| && events[k].Ask? ==>
        Sound(events[k].request, Run(score, w, events[..k]).stream)
  }

  lemma HonestPrefix(score: E.Detector, w: World, events: seq<Event>)
    requires Honest(score, w, events) && events != []
    ensures Honest(score, w, events[..|events| - 1])
    ensures events[|events| - 1].Ask? ==>
      Sound(events[|events| - 1].request, Run(score, w, events[..|events| - 1]).stream)
  {
    var before := events[..|events| - 1];
    forall k | 0 <= k < |before| && before[k].Ask? ensures Sound(before[k].request, Run(score, w, before[..k]).stream) {
      assert before[..k] == events[..k] && before[k] == events[k];
    }
  }

  lemma {:induction false} AlwaysContiguous(score: E.Detector, w: World, events: seq<Event>)
    requires Initial(w) && Honest(score, w, events)
    ensures Inv(Run(score, w, events))
  {
    if events != [] {
      var before := events[..|events| - 1];
      HonestPrefix(score, w, events);
      AlwaysContiguous(score, w, before);
      StepKeeps(score, Run(score, w, before), events[|events| - 1]);
    }
  }

  // ---------------------------------------------------------------- who may ask

  /**
   Without a connection there is neither a turn nor a claim, and a claim belongs to a request that
   is still on its way.
   */
  ghost predicate Claims(w: World) {
    && (!w.coord.connected ==> !w.coord.active && !w.coord.pending)
    && (w.coord.pending ==> w.sending != [] || w.triggers != [])
  }

  lemma {:induction false} AppendKeepsClaim(score: E.Detector, c: Coord, frames: seq<Frame>)
    ensures var d := AppendedAll(score, c, frames).0;
            d.connected == c.connected && d.active == c.active && d.pending == c.pending
  {
    if frames != [] {
      AppendKeepsClaim(score, c, frames[..|frames| - 1]);
    }
  }

  lemma StartClaims(score: E.Detector, c: Coord, q: Request, dropped: nat)
    ensures var d := Started(score, c, q, dropped).0;
            && !d.pending && d.connected == c.connected && d.active == (c.active || CanStart(c))
  {
    if CanStart(c) {
      AppendKeepsClaim(score, Opened(c, q, dropped), c.history);
    }
  }

  lemma ClaimsStep(score: E.Detector, w: World, e: Event)
    requires Claims(w)
    ensures Claims(Step(score, w, e))
  {
    if e.TakeTrigger? {
      if w.triggers != [] && !w.closed {
        StartClaims(score, w.coord, w.triggers[0], w.dropped);
      }
    } else if e.TakeFrame? {
      ClaimsTakeFrame(score, w);
    } else if e.Connect? {
      ClaimsConnect(score, w, e.connected);
    } else {
      ClaimsElsewhere(score, w, e);
    }
  }

  lemma ClaimsTakeFrame(score: E.Detector, w: World)
    requires Claims(w)
    ensures Claims(Step(score, w, TakeFrame))
  {
  }

  /** A disconnection gives back whatever was claimed. */
  lemma ClaimsConnect(score: E.Detector, w: World, on: bool)
    requires Claims(w)
    ensures Claims(Step(score, w, Connect(on)))
    ensures !on ==> !Step(score, w, Connect(on)).coord.pending && !Step(score, w, Connect(on)).coord.active
  {
  }

  lemma ClaimsElsewhere(score: E.Detector, w: World, e: Event)
    requires Claims(w) && !e.TakeTrigger? && !e.TakeFrame? && !e.Connect?
    ensures Claims(Step(score, w, e))
  {
  }

  /** On every run that begins without a claim. */
  lemma {:induction false} AlwaysClaims(score: E.Detector, w: World, events: seq<Event>)
    requires Initial(w) && !w.coord.pending
    ensures Claims(Run(score, w, events))
  {
    if events != [] {
      AlwaysClaims(score, w, events[..|events| - 1]);
      ClaimsStep(score, Run(score, w, events[..|events| - 1]), events[|events| - 1]);
    }
  }

  /** Nothing asks, starts a turn or disconnects. */
  ghost predicate Unasked(score: E.Detector, w: World, events: seq<Event>) {
    forall n {:trigger events[n]} :: 0 <= n < |events| ==>
      !events[n].Ask? && !events[n].Connect? && !Starts(Run(score, w, events[..n]), events[n])
  }

  lemma {:induction false} StaysFree(score: E.Detector, w: World, events: seq<Event>)
    requires w.coord.connected && !w.coord.active && !w.coord.pending && Unasked(score, w, events)
    ensures var c := Run(score, w, events).coord; c.connected && !c.active && !c.pending
  {
    if events != [] {
      var before := events[..|events| - 1];
      forall n | 0 <= n < |before|
        ensures !before[n].Ask? && !before[n].Connect? && !Starts(Run(score, w, before[..n]), before[n])
      {
        assert before[..n] == events[..n] && before[n] == events[n];
      }
      StaysFree(score, w, before);
      FreeStep(score, Run(score, w, before), events[|events| - 1]);
    }
  }

  lemma FreeStep(score: E.Detector, w: World, e: Event)
    requires w.coord.connected && !w.coord.active && !w.coord.pending && !e.Ask? && !e.Connect? && !Starts(w, e)
    ensures var c := Step(score, w, e).coord; c.connected && !c.active && !c.pending
  {
  }

  /** A request that finds no room gives its claim back, and the next one is taken at once. */
  lemma RefusedSendGivesBack(score: E.Detector, w: World, i: nat, q: Request)
    requires i < |w.sending| && |w.triggers| >= 2 && w.coord.connected && !w.coord.active
    ensures var d := Step(score, w, Send(i));
            && !d.coord.pending && d.triggers == w.triggers && d.sending == Without(w.sending, i)
            && Step(score, d, Ask(q)).coord.pending && Step(score, d, Ask(q)).sending == d.sending + [q]
  {
  }

  /**
   On every run, after any disconnection: the first request after the next connection is taken, unless
   one from before the disconnection, still on its way, has started a turn by then.
   */
  lemma FirstRequestIsTaken(score: E.Detector, w: World, before: seq<Event>, events: seq<Event>, q: Request)
    requires Initial(w) && !w.coord.pending && !Run(score, w, before).coord.connected
    requires var on := Step(score, Run(score, w, before), Connect(true)); Unasked(score, on, events)
    ensures var r := Run(score, Step(score, Run(score, w, before), Connect(true)), events);
            var d := Step(score, r, Ask(q));
            d.coord.pending && d.sending == r.sending + [q]
  {
    AlwaysClaims(score, w, before);
    StaysFree(score, Step(score, Run(score, w, before), Connect(true)), events);
  }

  // ---------------------------------------------------------------- requests without a pre-roll

  /** The coordinator's position is one in the captured stream. */
  ghost predicate Positioned(w: World) {
    0 <= w.coord.nextOffset <= |w.stream|
  }

  lemma PositionedStep(score: E.Detector, w: World, e: Event)
    requires Inv(w) && Inv(Step(score, w, e)) && Positioned(w)
    ensures Positioned(Step(score, w, e))
  {
    var w' := Step(score, w, e);
    if w'.coord.active {
      assert CoordOk(w'.coord, w'.stream);
    } else if Takes(w, e) {
      IdleMoves(score, w);
    } else {
      PositionKept(score, w, e);
    }
  }

  lemma IdleMoves(score: E.Detector, w: World)
    requires Inv(w) && Takes(w, TakeFrame) && Positioned(w) && !Step(score, w, TakeFrame).coord.active
    ensures Positioned(Step(score, w, TakeFrame))
  {
    assert FrameOk(w.queue[0], w.stream);
    if w.coord.active {
      AppendKeeps(score, w.coord, w.queue[0], w.stream);
    }
  }

  lemma PositionKept(score: E.Detector, w: World, e: Event)
    requires Inv(w) && !Takes(w, e) && !Step(score, w, e).coord.active
    ensures var w' := Step(score, w, e); w'.coord.nextOffset == w.coord.nextOffset && |w'.stream| >= |w.stream|
  {
    if Starts(w, e) {
      OpenKeeps(w.coord, w.triggers[0], w.dropped, w.stream);
      AppendAllActive(score, Opened(w.coord, w.triggers[0], w.dropped), w.coord.history, w.stream);
    }
  }

  lemma {:induction false} AlwaysPositioned(score: E.Detector, w: World, events: seq<Event>)
    requires Initial(w) && Honest(score, w, events)
    ensures Positioned(Run(score, w, events))
  {
    if events != [] {
      var before := events[..|events| - 1];
      HonestPrefix(score, w, events);
      AlwaysContiguous(score, w, before);
      AlwaysContiguous(score, w, events);
      AlwaysPositioned(score, w, before);
      PositionedStep(score, Run(score, w, before), events[|events| - 1]);
    }
  }

  lemma StreamGrows(score: E.Detector, w: World, e: Event)
    ensures w.stream <= Step(score, w, e).stream
  {
  }

  lemma {:induction false} StreamOnlyGrows(score: E.Detector, w: World, events: seq<Event>, n: nat)
    requires n <= |events|
    ensures Run(score, w, events[..n]).stream <= Run(score, w, events).stream
    decreases |events|
  {
    if n == |events| {
      assert events[..n] == events;
    } else {
      var before := events[..|events| - 1];
      assert before[..n] == events[..n];
      StreamOnlyGrows(score, w, before, n);
      StreamGrows(score, Run(score, w, before), events[|events| - 1]);
    }
  }

  /** A button asks without a pre-roll, for the position it has read some time before: that request is always sound. */
  lemma ButtonRequestSound(score: E.Detector, w: World, events: seq<Event>, n: nat, trigger: int)
    requires Initial(w) && Honest(score, w, events) && n <= |events|
    ensures Sound(Request(trigger, [], Run(score, w, events[..n]).coord.nextOffset), Run(score, w, events).stream)
  {
    HonestTake(score, w, events, n);
    AlwaysPositioned(score, w, events[..n]);
    StreamOnlyGrows(score, w, events, n);
  }

  lemma {:induction false} HonestTake(score: E.Detector, w: World, events: seq<Event>, n: nat)
    requires Honest(score, w, events) && n <= |events|
    ensures Honest(score, w, events[..n])
    decreases |events|
  {
    if n < |events| {
      HonestPrefix(score, w, events);
      HonestTake(score, w, events[..|events| - 1], n);
      assert events[..|events| - 1][..n] == events[..n];
    } else {
      assert events[..n] == events;
    }
  }

  // ---------------------------------------------------------------- whose turn it is

  function Asked(events: seq<Event>): set<Request> {
    set k | 0 <= k < |events| && events[k].Ask? :: events[k].request
  }

  /** The turn answers this request: it begins where the request says, with all of its pre-roll. */
  ghost predicate Answers(t: Turn, q: Request) {
    t.trigger == q.trigger && t.base == q.offset && q.preRoll <= Audio(t)
  }

  ghost predicate Requested(t: Turn, asked: set<Request>) {
    exists q :: q in asked && Answers(t, q)
  }

  ghost predicate AllRequested(ts: seq<Turn>, asked: set<Request>) {
    forall i {:trigger ts[i]} :: 0 <= i < |ts| ==> Requested(ts[i], asked)
  }

  ghost predicate AllAsked(qs: seq<Request>, asked: set<Request>) {
    forall i {:trigger qs[i]} :: 0 <= i < |qs| ==> qs[i] in asked
  }

  ghost predicate Known(w: World, asked: set<Request>) {
    && AllAsked(w.sending, asked) && AllAsked(w.triggers, asked)
    && (w.coord.active ==> Requested(w.coord.turn, asked))
    && AllRequested(w.handing, asked) && AllRequested(w.done, asked) && AllRequested(w.delivered, asked)
  }

  /** Appending a frame leaves the turn the answer to its request. */
  lemma AppendAnswers(score: E.Detector, c: Coord, f: Frame, stream: seq<Sample>, q: Request)
    requires CoordOk(c, stream) && c.active && Answers(c.turn, q)
    ensures Answers(Appended(score, c, f).0.turn, q)
  {
    if f.End() > c.nextOffset && f.offset <= c.nextOffset {
      AudioSnoc(c.turn, f.samples[c.nextOffset - f.offset..]);
    }
  }

  lemma {:induction false} AppendAllAnswers(score: E.Detector, c: Coord, frames: seq<Frame>, stream: seq<Sample>,
      q: Request)
    requires CoordOk(c, stream) && c.active && FramesOk(frames, stream) && Answers(c.turn, q)
    ensures Answers(AppendedAll(score, c, frames).0.turn, q)
  {
    if frames != [] {
      var before := frames[..|frames| - 1];
      AppendAllActive(score, c, before, stream);
      AppendAllAnswers(score, c, before, stream, q);
      AppendAnswers(score, AppendedAll(score, c, before).0, frames[|frames| - 1], stream, q);
    }
  }

  lemma StartAnswers(score: E.Detector, c: Coord, q: Request, dropped: nat, stream: seq<Sample>)
    requires CoordOk(c, stream) && Sound(q, stream) && CanStart(c)
    ensures Answers(Started(score, c, q, dropped).0.turn, q)
  {
    OpenAudio(q);
    OpenKeeps(c, q, dropped, stream);
    AppendAllAnswers(score, Opened(c, q, dropped), c.history, stream, q);
  }

  lemma ObserveAnswers(score: E.Detector, c: Coord, f: Frame, dropped: nat, stream: seq<Sample>, asked: set<Request>)
    requires CoordOk(c, stream) && c.active && Requested(c.turn, asked)
    ensures Requested(Observed(score, c, f, dropped).0.turn, asked)
  {
    var q :| q in asked && Answers(c.turn, q);
    AppendAnswers(score, c, f, stream, q);
    assert q in asked && Answers(Observed(score, c, f, dropped).0.turn, q);
  }

  lemma KnownMore(w: World, asked: set<Request>, more: set<Request>)
    requires Known(w, asked) && asked <= more
    ensures Known(w, more)
  {
    forall t: Turn | Requested(t, asked) ensures Requested(t, more) {
      var q :| q in asked && Answers(t, q);
      assert q in more;
    }
  }

  lemma KnownFinish(score: E.Detector, w: World, i: nat, asked: set<Request>)
    requires Known(w, asked)
    ensures Known(Step(score, w, RunFinish(i)), asked)
  {
    if i < |w.finishing| && w.coord.active {
      var turn := w.coord.turn.(reason := Some(w.finishing[i].stop));
      var q :| q in asked && Answers(w.coord.turn, q);
      assert Audio(turn) == Audio(w.coord.turn);
      assert Answers(turn, q);
    }
  }

  lemma KnownStep(score: E.Detector, w: World, e: Event, asked: set<Request>)
    requires Inv(w) && Known(w, asked) && (e.Ask? ==> e.request in asked)
    ensures Known(Step(score, w, e), asked)
  {
    match e
    case TakeTrigger =>
      if Starts(w, e) {
        StartAnswers(score, w.coord, w.triggers[0], w.dropped, w.stream);
        assert w.triggers[0] in asked;
      }
    case TakeFrame =>
      if w.queue != [] && w.coord.active {
        ObserveAnswers(score, w.coord, w.queue[0], w.dropped, w.stream, asked);
      }
    case RunFinish(i) => KnownFinish(score, w, i, asked);
    case _ =>
  }

  lemma {:induction false} AlwaysKnown(score: E.Detector, w: World, events: seq<Event>)
    requires Initial(w) && Honest(score, w, events)
    ensures Known(Run(score, w, events), Asked(events))
  {
    if events != [] {
      var before := events[..|events| - 1];
      HonestPrefix(score, w, events);
      AlwaysContiguous(score, w, before);
      AlwaysKnown(score, w, before);
      KnownMore(Run(score, w, before), Asked(before), Asked(events));
      KnownStep(score, Run(score, w, before), events[|events| - 1], Asked(events));
    }
  }

  /**
   Whatever the interleaving, every turn handed to the transport answers a request that was made:
   its audio is one contiguous slice of the captured stream, from the pre-roll's first sample on.
   */
  lemma DeliveredTurnsAreSlices(score: E.Detector, w: World, events: seq<Event>, i: nat) returns (q: Request)
    requires Initial(w) && Honest(score, w, events)
    requires i < |Run(score, w, events).delivered|
    ensures q in Asked(events)
    ensures var r := Run(score, w, events);
            var t, audio := r.delivered[i], Audio(r.delivered[i]);
            && t.trigger == q.trigger && q.preRoll <= audio
            && 0 <= q.offset && q.offset + |audio| <= |r.stream| && audio == r.stream[q.offset..q.offset + |audio|]
  {
    AlwaysContiguous(score, w, events);
    AlwaysKnown(score, w, events);
    var r := Run(score, w, events);
    assert Requested(r.delivered[i], Asked(events));
    q :| q in Asked(events) && Answers(r.delivered[i], q);
  }
}

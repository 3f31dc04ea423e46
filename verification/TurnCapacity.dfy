/** When a turn is certain to be sent whole: the room the bounded queue really needs. */
module TurnCapacity {
  import opened Wrappers
  import opened Pcm
  import opened ClientQueue
  import opened TurnProtocol
  import opened Int64
  import opened Arith
  import G = Gateway

  /** PCM frames that will be queued; empty ones are skipped. */
  function NonEmpty(pcm: seq<seq<Byte>>): nat {
    if pcm == [] then 0 else (if pcm[0] == [] then 0 else 1) + NonEmpty(pcm[1..])
  }

  /** Frames the sender still has to queue. */
  function Remaining(s: Sender): nat {
    match s
    case Idle => 0
    case Starting(t) => 3 + NonEmpty(t.pcm)
    case Opening(t) => 2 + NonEmpty(t.pcm)
    case Streaming(t, k) => if k <= |t.pcm| then 1 + NonEmpty(t.pcm[k..]) else 0
  }

  function TurnOf(s: Sender): Turn
    requires !s.Idle?
  {
    s.turn
  }

  /** A live session in which the current call has not gone wrong. */
  ghost predicate Sending(w: World, retain: bool) {
    && Inv(w, retain) && w.phase.Live? && w.writing && !w.failed && |w.link.high| <= CAPACITY
    && (!w.sender.Idle? ==> G.Sendable(TurnOf(w.sender).pcm))
  }

  /** A frame that the reader or a report pushes into the same queue, if there is one to push. */
  predicate Pushing(e: Event) {
    (e.Answer? && (e.frame == G.ConfigResult(true) || e.frame == G.Pong)) || e.PushReport?
  }

  /** What happens on a working connection while one call sends. */
  predicate Working(e: Event) {
    e.SendStep? || e == WriteHead(true) || e.WriteLog? || e.CheckReport? || Pushing(e)
  }

  ghost predicate Schedule(events: seq<Event>) {
    forall i {:trigger events[i]} :: 0 <= i < |events| ==> Working(events[i])
  }

  /** How many frames other than the turn's a schedule pushes at most. */
  function Pushes(events: seq<Event>): nat {
    if events == [] then 0 else
      Pushes(events[..|events| - 1]) + (if Pushing(events[|events| - 1]) then 1 else 0)
  }

  lemma RemainingNext(t: Turn, k: nat)
    requires k < |t.pcm|
    ensures NonEmpty(t.pcm[k..]) == (if t.pcm[k] == [] then 0 else 1) + NonEmpty(t.pcm[k + 1..])
  {
    assert t.pcm[k..][1..] == t.pcm[k + 1..];
  }

  lemma RemainingAll(t: Turn)
    ensures t.pcm[0..] == t.pcm && NonEmpty(t.pcm[|t.pcm|..]) == 0
  {
  }

  /** While what is queued and what remains fit together, no step of the sender gives up. */
  lemma SendFits(w: World, retain: bool)
    requires Sending(w, retain) && |w.link.high| + Remaining(w.sender) <= CAPACITY
    ensures var d := Sent(w);
            Sending(d, retain) && |d.link.high| + Remaining(d.sender) <= |w.link.high| + Remaining(w.sender)
  {
    SendKeeps(w, retain);
    match w.sender
    case Idle =>
    case Starting(t) =>
    case Opening(t) => RemainingAll(t);
    case Streaming(t, k) =>
      if k < |t.pcm| {
        RemainingNext(t, k);
      } else {
        RemainingAll(t);
      }
  }

  lemma DrainFits(w: World, e: Event, retain: bool)
    requires Sending(w, retain) && (e == WriteHead(true) || e.WriteLog? || e.CheckReport?)
    ensures var d := Step(w, e, retain);
            Sending(d, retain) && d.sender == w.sender && d.sent == w.sent && |d.link.high| <= |w.link.high|
  {
    StepKeeps(w, e, retain);
  }

  lemma PushFits(w: World, e: Event, retain: bool)
    requires Sending(w, retain) && Pushing(e) && Room(w.link)
    ensures var d := Step(w, e, retain);
            Sending(d, retain) && d.sender == w.sender && d.sent == w.sent && |d.link.high| <= |w.link.high| + 1
  {
    StepKeeps(w, e, retain);
  }

  /** The call is still sending the turn, or has queued all of it. */
  ghost predicate OnTurn(w: World, t: Turn, sent: seq<G.Completed>) {
    if w.sender.Idle? then w.sent == sent + [G.Completed(t.id, G.Bytes(t.pcm))]
    else TurnOf(w.sender) == t && w.sent == sent
  }

  lemma SendOnTurn(w: World, t: Turn, sent: seq<G.Completed>, retain: bool)
    requires Sending(w, retain) && |w.link.high| + Remaining(w.sender) <= CAPACITY && OnTurn(w, t, sent)
    ensures OnTurn(Sent(w), t, sent)
  {
  }

  /**
   With room for all of the turn's frames and as many others as are pushed meanwhile, the call is
   never given up, whatever the schedule: it goes on until the whole turn is queued.
   */
  lemma {:induction false} RoomIsEnough(w: World, events: seq<Event>, t: Turn, sent: seq<G.Completed>, retain: bool)
    requires Sending(w, retain) && OnTurn(w, t, sent) && Schedule(events)
    requires |w.link.high| + Remaining(w.sender) + Pushes(events) <= CAPACITY
    ensures var d := Run(w, events, retain);
            && Sending(d, retain) && OnTurn(d, t, sent)
            && |d.link.high| + Remaining(d.sender) <= |w.link.high| + Remaining(w.sender) + Pushes(events)
  {
    if events != [] {
      var before, e := events[..|events| - 1], events[|events| - 1];
      RoomIsEnough(w, before, t, sent, retain);
      var b := Run(w, before, retain);
      assert Working(e);
      if e.SendStep? {
        SendFits(b, retain);
        SendOnTurn(b, t, sent, retain);
      } else if Pushing(e) {
        PushFits(b, e, retain);
      } else {
        DrainFits(b, e, retain);
      }
    }
  }

  /** The schedule that lets the sender run and the writer only when the sender is blocked. */
  function Stalling(w: World): Event {
    if w.sender.Streaming? && w.sender.next < |w.sender.turn.pcm| && w.sender.turn.pcm[w.sender.next] != []
      && !Room(w.link)
    then WriteHead(true) else SendStep
  }

  lemma StallingStep(w: World, retain: bool)
    requires Sending(w, retain) && !w.sender.Idle? && |w.link.high| + Remaining(w.sender) > CAPACITY
    requires w.sender.Starting? ==> |w.link.high| + 3 <= CAPACITY
    requires w.sender.Opening? ==> |w.link.high| + 2 <= CAPACITY
    ensures var d := Step(w, Stalling(w), retain);
            || d.failed
            || (&& Sending(d, retain) && !d.sender.Idle? && |d.link.high| + Remaining(d.sender) > CAPACITY
                && !d.sender.Starting? && (d.sender.Opening? ==> |d.link.high| + 2 <= CAPACITY)
                && Measure(d) < Measure(w))
  {
    match w.sender
    case Starting(t) => StepKeeps(w, Stalling(w), retain);
    case Opening(t) => StepKeeps(w, Stalling(w), retain); RemainingAll(t);
    case Streaming(t, k) => StallingStream(w, t, k, retain);
  }

  lemma StallingStream(w: World, t: Turn, k: nat, retain: bool)
    requires Sending(w, retain) && w.sender == Streaming(t, k) && |w.link.high| + Remaining(w.sender) > CAPACITY
    ensures var d := Step(w, Stalling(w), retain);
            || d.failed
            || (&& Sending(d, retain) && d.sender.Streaming? && |d.link.high| + Remaining(d.sender) > CAPACITY
                && Measure(d) < Measure(w))
  {
    StepKeeps(w, Stalling(w), retain);
    if k < |t.pcm| {
      RemainingNext(t, k);
    } else {
      RemainingAll(t);
    }
  }

  /** Sender steps left, with the writer's turns in between. */
  function Measure(w: World): nat {
    var left := match w.sender
      case Idle => 0
      case Starting(t) => 3 + |t.pcm|
      case Opening(t) => 2 + |t.pcm|
      case Streaming(t, k) => if k <= |t.pcm| then 1 + |t.pcm| - k else 0;
    2 * left + (if Room(w.link) then 0 else 1)
  }

  /** Without that room there is a schedule in which the last frame finds the queue full. */
  lemma {:induction false} WithoutRoomMayGiveUp(w: World, retain: bool) returns (events: seq<Event>)
    requires Sending(w, retain) && !w.sender.Idle? && |w.link.high| + Remaining(w.sender) > CAPACITY
    requires w.sender.Starting? ==> |w.link.high| + 3 <= CAPACITY
    requires w.sender.Opening? ==> |w.link.high| + 2 <= CAPACITY
    ensures Schedule(events) && Pushes(events) == 0 && Run(w, events, retain).failed
    decreases Measure(w)
  {
    var e := Stalling(w);
    StallingStep(w, retain);
    var d := Step(w, e, retain);
    RunCons(w, e, [], retain);
    if d.failed {
      events := [e];
      assert [e] + [] == [e] && [e][..0] == [];
    } else {
      var rest := WithoutRoomMayGiveUp(d, retain);
      RunCons(w, e, rest, retain);
      PushesJoin([e], rest);
      assert [e][..0] == [];
      events := [e] + rest;
    }
  }

  lemma {:induction false} RunCons(w: World, e: Event, rest: seq<Event>, retain: bool)
    ensures Run(w, [e] + rest, retain) == Run(Step(w, e, retain), rest, retain)
  {
    if rest == [] {
      assert [e] + rest == [e] && [e][..0] == [];
    } else {
      RunCons(w, e, rest[..|rest| - 1], retain);
      assert ([e] + rest)[..|rest|] == [e] + rest[..|rest| - 1];
    }
  }

  lemma OneAnswer(w: World, events: seq<Event>, v: World, retain: bool) returns (more: seq<Event>)
    requires v == Run(w, events, retain) && Sending(v, retain) && Room(v.link) && Schedule(events)
    ensures Schedule(more) && Pushes(more) == Pushes(events) + 1
    ensures var d := Run(w, more, retain);
            Sending(d, retain) && d.sender == v.sender && |d.link.high| == |v.link.high| + 1
  {
    more := events + [Answer(G.Pong)];
    assert more[..|events|] == events;
    PushFits(v, Answer(G.Pong), retain);
  }

  /** Answers fill the queue up to any length below its capacity. */
  lemma {:induction false} Answered(w: World, n: nat, retain: bool) returns (events: seq<Event>)
    requires Sending(w, retain) && |w.link.high| + n <= CAPACITY
    ensures Schedule(events) && Pushes(events) == n
    ensures var d := Run(w, events, retain);
            Sending(d, retain) && d.sender == w.sender && |d.link.high| == |w.link.high| + n
  {
    if n == 0 {
      events := [];
    } else {
      events := Answered(w, n - 1, retain);
      events := OneAnswer(w, events, Run(w, events, retain), retain);
    }
  }

  /** After its two opening frames a turn still has to queue its PCM and its end. */
  lemma Opened(w: World, t: Turn, retain: bool)
    requires Sending(w, retain) && w.sender == Starting(t) && |w.link.high| + 3 <= CAPACITY
    ensures var d := Run(w, [SendStep, SendStep], retain);
            && Sending(d, retain) && d.sender == Streaming(t, 0) && |d.link.high| == |w.link.high| + 2
            && Remaining(d.sender) == 1 + NonEmpty(t.pcm)
  {
    SendKeeps(w, retain);
    SendKeeps(Sent(w), retain);
    assert [SendStep, SendStep][..1] == [SendStep] && [SendStep][..0] == [];
    assert Run(w, [SendStep], retain) == Sent(w);
    RemainingAll(t);
  }

  lemma {:induction false} PushesJoin(a: seq<Event>, b: seq<Event>)
    ensures Pushes(a + b) == Pushes(a) + Pushes(b)
  {
    if b == [] {
      assert a + b == a;
    } else {
      PushesJoin(a, b[..|b| - 1]);
      assert (a + b)[..|a + b| - 1] == a + b[..|b| - 1];
    }
  }

  lemma {:induction false} RunJoin(w: World, a: seq<Event>, b: seq<Event>, retain: bool)
    ensures Run(w, a + b, retain) == Run(Run(w, a, retain), b, retain)
  {
    if b == [] {
      assert a + b == a;
    } else {
      RunJoin(w, a, b[..|b| - 1], retain);
      assert (a + b)[..|a + b| - 1] == a + b[..|b| - 1];
    }
  }

  /** Three pieces of a schedule, one after the other. */
  lemma Pieces(w: World, a: seq<Event>, b: seq<Event>, c: seq<Event>, retain: bool)
    ensures Run(w, a + b + c, retain) == Run(Run(Run(w, a, retain), b, retain), c, retain)
    ensures Pushes(a + b + c) == Pushes(a) + Pushes(b) + Pushes(c)
    ensures Schedule(a) && Schedule(b) && Schedule(c) ==> Schedule(a + b + c)
  {
    RunJoin(w, a, b, retain);
    RunJoin(w, a + b, c, retain);
    PushesJoin(a, b);
    PushesJoin(a + b, c);
  }

  lemma OpeningPushesNothing()
    ensures Schedule([SendStep, SendStep]) && Pushes([SendStep, SendStep]) == 0
  {
    assert [SendStep, SendStep][..1] == [SendStep] && [SendStep][..0] == [];
    assert Pushes([SendStep]) == 0;
  }

  /** With fewer places than that, the other frames can take the last one while the turn is under way. */
  lemma OthersMayFill(w: World, t: Turn, a: nat, retain: bool) returns (events: seq<Event>)
    requires Sending(w, retain) && w.sender == Starting(t) && |w.link.high| + 3 <= CAPACITY
    requires |w.link.high| + 3 + NonEmpty(t.pcm) + a > CAPACITY
    ensures Schedule(events) && Pushes(events) <= a && Run(w, events, retain).failed
  {
    if |w.link.high| + 3 + NonEmpty(t.pcm) > CAPACITY {
      events := WithoutRoomMayGiveUp(w, retain);
    } else {
      var opening := [SendStep, SendStep];
      Opened(w, t, retain);
      OpeningPushesNothing();
      var answers, rest :=
          FillAndStall(Run(w, opening, retain), t, CAPACITY + 1 - (|w.link.high| + 3 + NonEmpty(t.pcm)), retain);
      Pieces(w, opening, answers, rest, retain);
      events := opening + answers + rest;
    }
  }

  lemma FillAndStall(o: World, t: Turn, n: nat, retain: bool) returns (answers: seq<Event>, rest: seq<Event>)
    requires Sending(o, retain) && o.sender == Streaming(t, 0) && Remaining(o.sender) == 1 + NonEmpty(t.pcm)
    requires |o.link.high| + n <= CAPACITY < |o.link.high| + n + Remaining(o.sender)
    ensures Schedule(answers) && Schedule(rest) && Pushes(answers) == n && Pushes(rest) == 0
    ensures Run(Run(o, answers, retain), rest, retain).failed
  {
    answers := Answered(o, n, retain);
    rest := WithoutRoomMayGiveUp(Run(o, answers, retain), retain);
  }

  /**
   On a working connection, while at most a other frames are pushed into the queue, a reserved
   turn is certain to be sent exactly when the queue has room for all of it and for them: three
   control frames, every non-empty PCM frame, and a more.
   */
  lemma ReservationIsExact(w: World, t: Turn, a: nat, retain: bool)
    requires Sending(w, retain) && w.sender.Idle? && Reservable(w.link) && TurnOk(t, retain) && G.Sendable(t.pcm)
    ensures var s := Step(w, StartSend(t), retain);
            (forall events :: Schedule(events) && Pushes(events) <= a ==>
              !Run(s, events, retain).failed && OnTurn(Run(s, events, retain), t, w.sent))
            <==> |w.link.high| + 3 + NonEmpty(t.pcm) + a <= CAPACITY
  {
    var s := Step(w, StartSend(t), retain);
    StepKeeps(w, StartSend(t), retain);
    if |w.link.high| + 3 + NonEmpty(t.pcm) + a <= CAPACITY {
      forall events | Schedule(events) && Pushes(events) <= a
        ensures !Run(s, events, retain).failed && OnTurn(Run(s, events, retain), t, w.sent)
      {
        RoomIsEnough(s, events, t, w.sent, retain);
      }
    } else {
      var events := OthersMayFill(s, t, a, retain);
    }
  }

  // ---------------------------------------------------------------- frames no turn can carry

  /**
   A PCM frame of a wrong size is found only when its turn comes. The call gives up with the
   turn's start already queued, and the start of the next turn ends the session.
   */
  lemma WrongFrameBreaksSession(w: World, t: Turn, k: nat, next: string, retain: bool)
    requires Inv(w, retain) && w.phase.Live? && w.writing && !w.failed && w.sender == Streaming(t, k) && k < |t.pcm|
    requires t.pcm[k] != [] && !(|t.pcm[k]| <= G.MAX_FRAME && |t.pcm[k]| % 2 == 0)
    ensures var d := Sent(w);
            && d.failed && d.sender.Idle? && d.link.high == w.link.high
            && G.AcceptAll(d.gateway, Frames(d.link.high) + [G.TurnStart(next, true)], retain).None?
  {
    G.AcceptSnoc(w.gateway, Frames(w.link.high), G.TurnStart(next, true), retain);
  }

  /** A wake turn's pre-roll is one PCM frame; it can be sent exactly up to 32768 samples. */
  lemma PreRollFits(preRoll: seq<Sample>)
    ensures G.Sendable([Encode(preRoll)]) <==> |preRoll| <= 32_768
  {
    OnePiece(Encode(preRoll), |preRoll|);
  }

  lemma OnePiece(data: seq<Byte>, n: nat)
    requires |data| == 2 * n
    ensures G.Sendable([data]) <==> n <= 32_768
  {
    assert [data][0] == data;
  }

  /**
   The pre-roll a configuration asks for is that small exactly while 16 million nanoseconds for
   every millisecond of it, reduced to 64 bits, stay below 32769 seconds; up to where they fit 64
   bits, that is up to 2048 ms.
   */
  lemma PreRollMsFits(ms: nat)
    ensures SamplesIn(RATE, Wrap(ms * NS_PER_MS)) <= 32_768 <==> Wrap(ms * 16 * NS_PER_SECOND) < 32_769 * NS_PER_SECOND
    ensures ms <= 576_460_752 ==> (SamplesIn(RATE, Wrap(ms * NS_PER_MS)) <= 32_768 <==> ms <= 2048)
  {
    WrapTimesRate(ms * NS_PER_MS);
    assert RATE * (ms * NS_PER_MS) == ms * 16 * NS_PER_SECOND;
  }

  const TWO64 := 0x1_0000_0000_0000_0000

  lemma WrapShift(x: int, m: int)
    ensures Wrap(x + m * TWO64) == Wrap(x)
  {
    var q, rest := (x - MIN) / TWO64, (x - MIN) % TWO64;
    DivUnique(x + m * TWO64 - MIN, TWO64, q + m, rest);
  }

  /** Reducing before the multiplication changes nothing after it. */
  lemma WrapTimesRate(x: int)
    ensures Wrap(RATE * Wrap(x)) == Wrap(RATE * x)
  {
    var q := (x - MIN) / TWO64;
    assert Wrap(x) == x - q * TWO64;
    WrapShift(RATE * x, -(RATE * q));
    assert RATE * Wrap(x) == RATE * x + -(RATE * q) * TWO64;
  }
}

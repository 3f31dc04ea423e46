/** The device client against the gateway automaton, over every interleaving and every reconnection. */
module TurnProtocol {
  import opened Wrappers
  import opened Pcm
  import opened ClientQueue
  import G = Gateway

  /** A completed local turn; valid stands for its identifier, trigger and stop reason. */
  datatype Turn = Turn(id: string, valid: bool, pcm: seq<seq<Byte>>)

  /** How far a call that sends a turn has come. */
  datatype Sender = Idle | Starting(turn: Turn) | Opening(turn: Turn) | Streaming(turn: Turn, next: nat)

  /** A session is live, then closing while its workers are joined, then drained, then down. */
  datatype Phase = Down | Live | Closing | Drained

  datatype Written = Written(item: Item, session: nat)

  /**
   writing says that the writer has not met an error; sent lists the turns of this session whose
   every frame was queued; failed says that a call gave up between the first and the last frame of
   a turn; wire is everything ever written. reports holds, for every deferred configuration result
   that has seen a connection and is about to be queued, the session it saw.
   */
  datatype World = World(link: Link, phase: Phase, session: nat, sender: Sender, writing: bool, gateway: G.State,
                         rejected: bool, sent: seq<G.Completed>, failed: bool, reports: seq<nat>, wire: seq<Written>)

  datatype Event =
    | Connect
    | StartSend(turn: Turn)
    | SendStep
    | AbortSend
    | WriteHead(delivered: bool)
    | WriteLog
    | Answer(frame: G.Frame)
    | CheckReport
    | PushReport(i: nat)
    | Fail
    | Join
    | Disconnect

  predicate Running(w: World) {
    w.phase.Live? || w.phase.Closing?
  }

  function Broken(w: World): World {
    if w.phase.Live? then w.(phase := Closing) else w
  }

  function Put(w: World, f: G.Frame): World {
    w.(link := Queued(w.link, Item(f, w.session, false)))
  }

  /** The session's workers are gone and its queue has been drained. */
  predicate Joined(w: World, session: nat) {
    session < w.session || !Running(w)
  }

  predicate CanPut(w: World) {
    w.link.conn && Room(w.link)
  }

  /** The call returns; giving up after a frame of the turn was queued breaks the sequence. */
  function Returned(w: World, failed: bool): World {
    w.(sender := Idle, link := Released(w.link), failed := w.failed || failed)
  }

  /** The next frame of the turn being sent. PCM waits for room; a wrong size gives up. */
  function Sent(w: World): World {
    match w.sender
    case Idle => w
    case Starting(t) =>
      if CanPut(w) then Put(w, G.TurnStart(t.id, true)).(sender := Opening(t)) else Returned(w, false)
    case Opening(t) =>
      if CanPut(w) then Put(w, G.AudioStart(t.id, true)).(sender := Streaming(t, 0)) else Returned(w, true)
    case Streaming(t, k) =>
      if k < |t.pcm| then
        if t.pcm[k] == [] then w.(sender := Streaming(t, k + 1))
        else if |t.pcm[k]| > G.MAX_FRAME || |t.pcm[k]| % 2 != 0 || !w.link.conn then Returned(w, true)
        else if Room(w.link) then Put(w, G.Pcm(t.pcm[k])).(sender := Streaming(t, k + 1))
        else w
      else if CanPut(w) then
        Returned(Put(w, G.AudioStop(t.id, true)), false).(sent := w.sent + [G.Completed(t.id, G.Bytes(t.pcm))])
      else Returned(w, true)
  }

  function Arrived(w: World, f: G.Frame, retain: bool): World {
    var next := G.Accept(w.gateway, f, retain);
    if w.rejected then w
    else if next.None? then Broken(w).(rejected := true)
    else w.(gateway := next.value)
  }

  function Step(w: World, e: Event, retain: bool): World {
    match e
    case Connect =>
      if !w.phase.Down? then w
      else w.(link := Linked(w.link, true), phase := Live, session := w.session + 1, writing := true,
              gateway := G.State(None, []), rejected := false, sent := [], failed := false)
    case StartSend(t) =>
      if Running(w) && w.sender.Idle? && t.valid && Reservable(w.link) then
        w.(sender := Starting(t), link := w.link.(active := true))
      else w
    case SendStep => Sent(w)
    case AbortSend => if w.phase.Closing? && !w.sender.Idle? then Returned(w, !w.sender.Starting?) else w
    case WriteHead(delivered) =>
      if !Running(w) || !w.writing || w.link.high == [] then w else
        var item := w.link.high[0];
        var taken := w.(link := w.link.(high := w.link.high[1..]));
        if !delivered then Broken(taken).(writing := false)
        else Arrived(taken.(wire := w.wire + [Written(item, w.session)]), item.frame, retain)
    case WriteLog => if Running(w) && w.writing then Arrived(w, G.Log(true), retain) else w
    case Answer(f) =>
      if !Running(w) || !(f == G.ConfigResult(true) || f == G.Pong) then w
      else if CanPut(w) then Put(w, f) else Broken(w)
    case CheckReport => if w.link.conn then w.(reports := w.reports + [w.session]) else w
    case PushReport(i) =>
      if i >= |w.reports| then w else
        var item := Item(G.ConfigResult(true), w.reports[i], Joined(w, w.reports[i]));
        w.(reports := w.reports[..i] + w.reports[i + 1..], link := Pushed(w.link, item))
    case Fail => Broken(w)
    case Join => if w.phase.Closing? && w.sender.Idle? then w.(phase := Drained, link := w.link.(high := [])) else w
    case Disconnect => if w.phase.Drained? then w.(phase := Down, link := Linked(w.link, false)) else w
  }

  function Run(w: World, events: seq<Event>, retain: bool): World {
    if events == [] then w else Step(Run(w, events[..|events| - 1], retain), events[|events| - 1], retain)
  }

  // ---------------------------------------------------------------- how a session ends

  /** What ends a live session: its own failure, a write that fails or is refused, an answer that finds no room. */
  predicate Ends(w: World, e: Event, retain: bool) {
    match e
    case Fail => true
    case WriteHead(delivered) =>
      && w.writing && w.link.high != []
      && (!delivered || (!w.rejected && G.Accept(w.gateway, w.link.high[0].frame, retain).None?))
    case Answer(f) => (f == G.ConfigResult(true) || f == G.Pong) && (!w.link.conn || |w.link.high| >= 64)
    case _ => false
  }

  /** A session goes from live to closing, drained and down, each step for one reason, and only then begins another. */
  lemma PhaseChanges(w: World, e: Event, retain: bool)
    ensures var d := Step(w, e, retain);
            && (w.phase.Live? ==> d.phase == if Ends(w, e, retain) then Closing else Live)
            && (w.phase.Closing? ==> d.phase == if e.Join? && w.sender.Idle? then Drained else Closing)
            && (w.phase.Drained? ==> d.phase == if e.Disconnect? then Down else Drained)
            && (w.phase.Down? ==> d.phase == if e.Connect? then Live else Down)
            && (d.phase.Drained? && !w.phase.Drained? ==> d.link.high == [])
            && d.session == w.session + (if w.phase.Down? && e.Connect? then 1 else 0)
  {
    if e.SendStep? {
      SendKeepsPhase(w);
    }
  }

  lemma SendKeepsPhase(w: World)
    ensures Sent(w).phase == w.phase && Sent(w).session == w.session
  {
  }

  // ---------------------------------------------------------------- the invariant

  function Frames(items: seq<Item>): (fs: seq<G.Frame>)
    ensures |fs| == |items|
  {
    seq(|items|, i requires 0 <= i < |items| => items[i].frame)
  }

  /** What the gateway's turn will be once everything queued has arrived. */
  function ExpectedTurn(s: Sender): Option<G.Active> {
    match s
    case Idle => None
    case Starting(_) => None
    case Opening(t) => Some(G.Active(t.id, false, 0))
    case Streaming(t, k) => if k <= |t.pcm| then Some(G.Active(t.id, true, G.Bytes(t.pcm[..k]))) else None
  }

  function Expected(w: World): G.State {
    G.State(ExpectedTurn(w.sender), w.sent)
  }

  ghost predicate TurnOk(t: Turn, retain: bool) {
    t.valid && !G.Blank(t.id) && (retain ==> G.Bytes(t.pcm) <= G.MAX_WAV)
  }

  ghost predicate SenderOk(s: Sender, retain: bool) {
    match s
    case Idle => true
    case Starting(t) => TurnOk(t, retain)
    case Opening(t) => TurnOk(t, retain)
    case Streaming(t, k) => TurnOk(t, retain) && k <= |t.pcm|
  }

  /** Unless a call gave up mid-turn, what is queued carries the gateway to where the sender stands. */
  ghost predicate InStep(w: World, retain: bool) {
    w.failed || (
      && !w.rejected && w.gateway.completed <= w.sent
      && (w.writing ==> G.AcceptAll(w.gateway, Frames(w.link.high), retain) == Some(Expected(w))))
  }

  /** What is queued: frames of the running session, and results that crossed from an earlier one. */
  ghost predicate Placed(items: seq<Item>, session: nat, running: bool) {
    forall i {:trigger items[i]} :: 0 <= i < |items| ==>
      if items[i].late then
        items[i].frame == G.ConfigResult(true)
            && (items[i].session < session || (!running && items[i].session == session))
      else running && items[i].session == session
  }

  /** What was written: a frame crosses sessions exactly when it was queued late, and then forwards and as a result. */
  ghost predicate Crossed(wire: seq<Written>) {
    forall i {:trigger wire[i]} :: 0 <= i < |wire| ==>
      if wire[i].item.late then wire[i].item.frame == G.ConfigResult(true) && wire[i].item.session < wire[i].session
      else wire[i].item.session == wire[i].session
  }

  /** The sender, the session and the gateway agree. */
  ghost predicate Carried(w: World, retain: bool) {
    && SenderOk(w.sender, retain)
    && (w.link.active <==> !w.sender.Idle?)
    && (w.link.conn <==> !w.phase.Down?)
    && (if Running(w) then InStep(w, retain) else w.sender.Idle?)
  }

  /** What is queued and what was written is where it belongs. */
  ghost predicate Tidy(w: World) {
    && Placed(w.link.high, w.session, Running(w)) && Crossed(w.wire)
    && (forall i {:trigger w.reports[i]} :: 0 <= i < |w.reports| ==> w.reports[i] <= w.session)
  }

  ghost predicate Inv(w: World, retain: bool) {
    Carried(w, retain) && Tidy(w)
  }

  // ---------------------------------------------------------------- preservation

  lemma FramesSnoc(items: seq<Item>, i: Item)
    ensures Frames(items + [i]) == Frames(items) + [i.frame]
  {
  }

  lemma {:induction false} ResultsAccepted(s: G.State, items: seq<Item>, retain: bool)
    requires forall i {:trigger items[i]} :: 0 <= i < |items| ==> items[i].frame == G.ConfigResult(true)
    ensures G.AcceptAll(s, Frames(items), retain) == Some(s)
  {
    if items != [] {
      var before := items[..|items| - 1];
      ResultsAccepted(s, before, retain);
      assert Frames(items)[..|items| - 1] == Frames(before);
      assert items[|items| - 1].frame == G.ConfigResult(true);
    }
  }

  /** Queueing a frame the expected state accepts keeps the queue in step. */
  lemma PutKeeps(w: World, f: G.Frame, next: World, retain: bool)
    requires InStep(w, retain) && Room(w.link) && |next.link.high| == |w.link.high| + 1
    requires next.link.high == w.link.high + [next.link.high[|w.link.high|]] && next.link.high[|w.link.high|].frame == f
    requires next.gateway == w.gateway && next.rejected == w.rejected && next.writing == w.writing
      && next.failed == w.failed
    requires w.sent <= next.sent && G.Accept(Expected(w), f, retain) == Some(Expected(next))
    ensures InStep(next, retain)
  {
    FramesSnoc(w.link.high, next.link.high[|w.link.high|]);
    G.AcceptSnoc(w.gateway, Frames(w.link.high), f, retain);
  }

  lemma ConnectCarries(w: World, retain: bool)
    requires Inv(w, retain)
    ensures Carried(Step(w, Connect, retain), retain)
  {
    if w.phase.Down? {
      ResultsAccepted(G.State(None, []), w.link.high, retain);
    }
  }

  lemma BytesNext(pcm: seq<seq<Byte>>, k: nat)
    requires k < |pcm|
    ensures G.Bytes(pcm[..k + 1]) == G.Bytes(pcm[..k]) + |pcm[k]|
  {
    assert pcm[..k + 1][..k] == pcm[..k];
  }

  lemma BytesAll(pcm: seq<seq<Byte>>)
    ensures pcm[..|pcm|] == pcm
  {
  }

  lemma SendCarries(w: World, retain: bool)
    requires Carried(w, retain) && Running(w)
    ensures Carried(Sent(w), retain)
  {
    match w.sender
    case Idle =>
    case Starting(t) => ControlCarries(w, retain);
    case Opening(t) => ControlCarries(w, retain);
    case Streaming(t, k) => StreamCarries(w, t, k, retain);
  }

  lemma ControlCarries(w: World, retain: bool)
    requires Carried(w, retain) && Running(w) && (w.sender.Starting? || w.sender.Opening?)
    ensures Carried(Sent(w), retain)
  {
    if CanPut(w) && !w.failed {
      BytesNone(w.sender.turn.pcm);
      PutKeeps(w, NextFrame(w.sender), Sent(w), retain);
    }
  }

  lemma BytesNone(pcm: seq<seq<Byte>>)
    ensures G.Bytes(pcm[..0]) == 0
  {
  }

  lemma StreamCarries(w: World, t: Turn, k: nat, retain: bool)
    requires Carried(w, retain) && Running(w) && w.sender == Streaming(t, k)
    ensures Carried(Sent(w), retain)
  {
    if k < |t.pcm| {
      PcmCarries(w, t, k, retain);
    } else {
      StopCarries(w, t, retain);
    }
  }

  lemma PcmCarries(w: World, t: Turn, k: nat, retain: bool)
    requires Carried(w, retain) && Running(w) && w.sender == Streaming(t, k) && k < |t.pcm|
    ensures Carried(Sent(w), retain)
  {
    BytesNext(t.pcm, k);
    if t.pcm[k] != [] && |t.pcm[k]| <= G.MAX_FRAME && |t.pcm[k]| % 2 == 0 && CanPut(w) {
      if !w.failed {
        PutKeeps(w, G.Pcm(t.pcm[k]), Sent(w), retain);
      }
    }
  }

  lemma StopCarries(w: World, t: Turn, retain: bool)
    requires Carried(w, retain) && Running(w) && w.sender == Streaming(t, |t.pcm|)
    ensures Carried(Sent(w), retain)
  {
    BytesAll(t.pcm);
    if CanPut(w) && !w.failed {
      PutKeeps(w, G.AudioStop(t.id, true), Sent(w), retain);
    }
  }

  /** At most this frame of the session has been queued, and nothing else that is queued or was written has changed. */
  ghost predicate QueuesOne(w: World, d: World, f: G.Frame) {
    && d.wire == w.wire && d.session == w.session && d.phase == w.phase && d.reports == w.reports
    && (d.link.high == w.link.high || d.link.high == w.link.high + [Item(f, w.session, false)])
  }

  /** The frame a sender would queue next. */
  function NextFrame(s: Sender): G.Frame {
    match s
    case Idle => G.Pong
    case Starting(t) => G.TurnStart(t.id, true)
    case Opening(t) => G.AudioStart(t.id, true)
    case Streaming(t, k) => if k < |t.pcm| then G.Pcm(t.pcm[k]) else G.AudioStop(t.id, true)
  }

  lemma SentQueuesOne(w: World)
    ensures QueuesOne(w, Sent(w), NextFrame(w.sender))
  {
    match w.sender
    case Idle =>
    case Starting(t) => ControlQueuesOne(w);
    case Opening(t) => ControlQueuesOne(w);
    case Streaming(t, k) =>
      if k < |t.pcm| {
        PcmQueuesOne(w, t, k);
      } else {
        StopQueuesOne(w, t, k);
      }
  }

  lemma ControlQueuesOne(w: World)
    requires w.sender.Starting? || w.sender.Opening?
    ensures QueuesOne(w, Sent(w), NextFrame(w.sender))
  {
  }

  lemma PcmQueuesOne(w: World, t: Turn, k: nat)
    requires w.sender == Streaming(t, k) && k < |t.pcm|
    ensures QueuesOne(w, Sent(w), G.Pcm(t.pcm[k]))
  {
  }

  lemma StopQueuesOne(w: World, t: Turn, k: nat)
    requires w.sender == Streaming(t, k) && k >= |t.pcm|
    ensures QueuesOne(w, Sent(w), G.AudioStop(t.id, true))
  {
  }

  lemma OneKeepsTidy(w: World, d: World, f: G.Frame)
    requires Tidy(w) && Running(w) && QueuesOne(w, d, f)
    ensures Tidy(d)
  {
    assert forall i :: 0 <= i < |w.link.high| ==> d.link.high[i] == w.link.high[i];
  }

  lemma OneIsFresh(w: World, d: World, f: G.Frame, k: nat)
    requires QueuesOne(w, d, f) && k < |d.link.high|
    ensures !d.link.high[k].late || d.link.high[k] in w.link.high
  {
    if k < |w.link.high| {
      assert d.link.high[k] == w.link.high[k];
    }
  }

  lemma SendKeeps(w: World, retain: bool)
    requires Inv(w, retain) && Running(w)
    ensures Inv(Sent(w), retain)
  {
    SendCarries(w, retain);
    SentQueuesOne(w);
    OneKeepsTidy(w, Sent(w), NextFrame(w.sender));
  }

  lemma {:induction false} CompletedGrows(s: G.State, fs: seq<G.Frame>, retain: bool)
    requires G.AcceptAll(s, fs, retain).Some?
    ensures s.completed <= G.AcceptAll(s, fs, retain).value.completed
  {
    if fs != [] {
      CompletedGrows(s, fs[..|fs| - 1], retain);
    }
  }

  lemma WriteCarries(w: World, delivered: bool, retain: bool)
    requires Inv(w, retain)
    ensures Carried(Step(w, WriteHead(delivered), retain), retain)
  {
    if Running(w) && w.link.high != [] {
      var items := w.link.high;
      G.AcceptFirst(w.gateway, Frames(items), retain);
      assert Frames(items)[1..] == Frames(items[1..]);
      var next := G.Accept(w.gateway, items[0].frame, retain);
      if delivered && w.writing && !w.failed {
        CompletedGrows(next.value, Frames(items[1..]), retain);
      }
    }
  }

  lemma LogCarries(w: World, retain: bool)
    requires Inv(w, retain)
    ensures Carried(Step(w, WriteLog, retain), retain)
  {
  }

  lemma AnswerCarries(w: World, f: G.Frame, retain: bool)
    requires Inv(w, retain)
    ensures Carried(Step(w, Answer(f), retain), retain)
  {
    if Running(w) && (f == G.ConfigResult(true) || f == G.Pong) && CanPut(w) {
      PutKeeps(w, f, Put(w, f), retain);
    }
  }

  lemma ReportCarries(w: World, i: nat, retain: bool)
    requires Inv(w, retain)
    ensures Carried(Step(w, PushReport(i), retain), retain)
  {
    var d := Step(w, PushReport(i), retain);
    if i < |w.reports| && Room(w.link) && Running(w) {
      PutKeeps(w, G.ConfigResult(true), d, retain);
    }
  }

  lemma StepCarries(w: World, e: Event, retain: bool)
    requires Inv(w, retain) && (e.StartSend? ==> TurnOk(e.turn, retain) || !e.turn.valid)
    ensures Carried(Step(w, e, retain), retain)
  {
    match e
    case Connect => ConnectCarries(w, retain);
    case SendStep =>
      if Running(w) {
        SendCarries(w, retain);
      }
    case WriteHead(delivered) => WriteCarries(w, delivered, retain);
    case WriteLog => LogCarries(w, retain);
    case Answer(f) => AnswerCarries(w, f, retain);
    case PushReport(i) => ReportCarries(w, i, retain);
    case _ =>
  }

  /** Whatever the turns are, what is queued and what was written stays where it belongs. */
  ghost predicate Settled(w: World) {
    Tidy(w) && (!Running(w) ==> w.sender.Idle?)
  }

  lemma TidyStep(w: World, e: Event, retain: bool)
    requires Settled(w)
    ensures Settled(Step(w, e, retain))
  {
    if e.SendStep? && Running(w) {
      SentQueuesOne(w);
      OneKeepsTidy(w, Sent(w), NextFrame(w.sender));
    } else if e.Answer? {
      AnswerTidy(w, e.frame, retain);
    } else if e.WriteHead? || e.WriteLog? {
      WriteTidy(w, e, retain);
    } else if e.PushReport? {
      ReportTidy(w, e.i, retain);
    }
  }

  lemma AnswerTidy(w: World, f: G.Frame, retain: bool)
    requires Settled(w)
    ensures Settled(Step(w, Answer(f), retain))
  {
  }

  lemma WriteTidy(w: World, e: Event, retain: bool)
    requires Settled(w) && (e.WriteHead? || e.WriteLog?)
    ensures Settled(Step(w, e, retain))
  {
    if e.WriteHead? && Running(w) && w.writing && w.link.high != [] {
      HeadTidy(w, e.delivered, retain);
    } else {
      var d := Step(w, e, retain);
      assert d.link == w.link && d.wire == w.wire && d.reports == w.reports && d.session == w.session;
    }
  }

  lemma HeadTidy(w: World, delivered: bool, retain: bool)
    requires Settled(w) && Running(w) && w.writing && w.link.high != []
    ensures Settled(Step(w, WriteHead(delivered), retain))
  {
    var d := Step(w, WriteHead(delivered), retain);
    assert d.link.high == w.link.high[1..] && d.reports == w.reports && d.session == w.session && Running(d);
    assert d.wire == w.wire || d.wire == w.wire + [Written(w.link.high[0], w.session)];
  }

  lemma ReportTidy(w: World, i: nat, retain: bool)
    requires Settled(w)
    ensures Settled(Step(w, PushReport(i), retain))
  {
  }

  lemma StepKeeps(w: World, e: Event, retain: bool)
    requires Inv(w, retain) && (e.StartSend? ==> TurnOk(e.turn, retain) || !e.turn.valid)
    ensures Inv(Step(w, e, retain), retain)
  {
    StepCarries(w, e, retain);
    TidyStep(w, e, retain);
  }

  // ---------------------------------------------------------------- every run

  ghost predicate Initial(w: World) {
    w.link == Link(false, false, []) && w.phase.Down? && w.sender.Idle? && w.reports == [] && w.wire == []
  }

  /** A valid turn names itself, and fits a recording if recordings are kept. */
  ghost predicate Proper(events: seq<Event>, retain: bool) {
    forall i {:trigger events[i]} :: 0 <= i < |events| && events[i].StartSend? ==>
        TurnOk(events[i].turn, retain) || !events[i].turn.valid
  }

  lemma {:induction false} Always(w: World, events: seq<Event>, retain: bool)
    requires Initial(w) && Proper(events, retain)
    ensures Inv(Run(w, events, retain), retain)
  {
    if events != [] {
      Always(w, events[..|events| - 1], retain);
      StepKeeps(Run(w, events[..|events| - 1], retain), events[|events| - 1], retain);
    }
  }

  lemma {:induction false} AlwaysTidy(w: World, events: seq<Event>, retain: bool)
    requires Initial(w)
    ensures Settled(Run(w, events, retain))
  {
    if events != [] {
      AlwaysTidy(w, events[..|events| - 1], retain);
      TidyStep(Run(w, events[..|events| - 1], retain), events[|events| - 1], retain);
    }
  }

  /** In a session where no call gave up mid-turn, under every interleaving, the gateway never rejects a frame. */
  lemma NeverRejected(w: World, events: seq<Event>, retain: bool)
    requires Initial(w) && Proper(events, retain)
    ensures var r := Run(w, events, retain); Running(r) && !r.failed ==> !r.rejected
  {
    Always(w, events, retain);
  }

  /** What the gateway has completed are the sent turns in order, each with the total of its PCM frames. */
  lemma BytesConserved(w: World, events: seq<Event>, retain: bool)
    requires Initial(w) && Proper(events, retain)
    ensures var r := Run(w, events, retain);
            Running(r) && !r.failed ==>
              && r.gateway.completed <= r.sent
              && (r.writing && r.link.high == [] ==>
                r.gateway.completed == r.sent && (r.sender.Idle? ==> r.gateway.active.None?))
  {
    Always(w, events, retain);
  }

  // ---------------------------------------------------------------- after a call gave up

  /** No frame of a turn is queued that no start precedes. */
  predicate Between(s: Sender) {
    s.Idle? || s.Starting?
  }

  /** What is queued leaves the gateway in the middle of a turn, and does not get past another start. */
  ghost predicate Stuck(s: Option<G.State>, sender: Sender) {
    s.None? || (s.value.active.Some? && Between(sender))
  }

  ghost predicate Doomed(w: World, retain: bool) {
    Running(w) && w.failed && w.writing && !w.rejected ==>
      Stuck(G.AcceptAll(w.gateway, Frames(w.link.high), retain), w.sender)
  }

  /** A frame of the protocol's other parts changes nothing, and a start is refused. */
  lemma PutDoomed(w: World, d: World, f: G.Frame, retain: bool)
    requires Doomed(w, retain) && w.failed && Running(w)
    requires d.gateway == w.gateway && d.rejected == w.rejected && d.writing == w.writing
    requires |d.link.high| == |w.link.high| + 1 && d.link.high[..|w.link.high|] == w.link.high
    requires d.link.high[|w.link.high|].frame == f
    requires f.TurnStart? || !Between(w.sender) || ((f == G.ConfigResult(true) || f == G.Pong) && d.sender == w.sender)
    ensures Doomed(d, retain)
    ensures d.writing && !d.rejected && (f.TurnStart? || !Between(w.sender)) ==>
      G.AcceptAll(d.gateway, Frames(d.link.high), retain).None?
  {
    var item := d.link.high[|w.link.high|];
    assert d.link.high == w.link.high + [item];
    FramesSnoc(w.link.high, item);
    G.AcceptSnoc(w.gateway, Frames(w.link.high), f, retain);
  }

  /** Nothing the gateway sees has changed, and no call has gone further. */
  lemma SameDoomed(w: World, d: World, retain: bool)
    requires Doomed(w, retain) && w.failed && Running(w)
    requires d.gateway == w.gateway && d.rejected == w.rejected && d.writing == w.writing && d.link.high == w.link.high
    requires Between(w.sender) ==> Between(d.sender)
    ensures Doomed(d, retain)
  {
  }

  /** A call that has just given up leaves the gateway waiting for the rest of its turn. */
  lemma GaveUpDoomed(w: World, d: World, retain: bool)
    requires Carried(w, retain) && Running(w) && !w.failed && !Between(w.sender) && d.sender.Idle?
    requires d.gateway == w.gateway && d.rejected == w.rejected && d.writing == w.writing && d.link.high == w.link.high
    ensures Doomed(d, retain)
  {
  }

  /** What a step of the sender can do once a call has given up, or by giving up. */
  lemma SendMoves(w: World)
    ensures var d := Sent(w);
            && d.gateway == w.gateway && d.rejected == w.rejected && d.writing == w.writing
            && (w.failed ==> d.failed)
            && (d.failed && !w.failed ==> d.link.high == w.link.high && d.sender.Idle? && !Between(w.sender))
            && (d.link.high == w.link.high && Between(w.sender) ==> Between(d.sender))
            && (w.sender.Idle? ==> d.link.high == w.link.high)
  {
    match w.sender
    case Idle =>
    case Starting(t) => ControlMoves(w);
    case Opening(t) => ControlMoves(w);
    case Streaming(t, k) => StreamMoves(w, t, k);
  }

  lemma ControlMoves(w: World)
    requires w.sender.Starting? || w.sender.Opening?
    ensures var d := Sent(w);
            && d.gateway == w.gateway && d.rejected == w.rejected && d.writing == w.writing && (w.failed ==> d.failed)
            && (d.failed && !w.failed ==> d.link.high == w.link.high && d.sender.Idle? && w.sender.Opening?)
            && (d.link.high == w.link.high ==> Between(d.sender))
  {
    if CanPut(w) {
      assert |Sent(w).link.high| == |w.link.high| + 1;
    }
  }

  lemma StreamMoves(w: World, t: Turn, k: nat)
    requires w.sender == Streaming(t, k)
    ensures var d := Sent(w);
            && d.gateway == w.gateway && d.rejected == w.rejected && d.writing == w.writing && (w.failed ==> d.failed)
            && (d.failed && !w.failed ==> d.link.high == w.link.high && d.sender.Idle?)
  {
  }

  lemma SendDoomed(w: World, retain: bool)
    requires Carried(w, retain) && Doomed(w, retain) && Running(w)
    ensures Doomed(Sent(w), retain)
  {
    var d := Sent(w);
    SentQueuesOne(w);
    SendMoves(w);
    if w.failed {
      if d.link.high == w.link.high {
        SameDoomed(w, d, retain);
      } else {
        assert d.link.high[..|w.link.high|] == w.link.high;
        PutDoomed(w, d, NextFrame(w.sender), retain);
      }
    } else if d.failed {
      GaveUpDoomed(w, d, retain);
    }
  }

  lemma WriteDoomed(w: World, delivered: bool, retain: bool)
    requires Doomed(w, retain)
    ensures Doomed(Step(w, WriteHead(delivered), retain), retain)
  {
    if Running(w) && w.link.high != [] {
      G.AcceptFirst(w.gateway, Frames(w.link.high), retain);
      assert Frames(w.link.high)[1..] == Frames(w.link.high[1..]);
    }
  }

  lemma AnswerDoomed(w: World, f: G.Frame, retain: bool)
    requires Doomed(w, retain)
    ensures Doomed(Step(w, Answer(f), retain), retain)
  {
    if Running(w) && w.failed && (f == G.ConfigResult(true) || f == G.Pong) && CanPut(w) {
      assert Put(w, f).link.high[..|w.link.high|] == w.link.high;
      PutDoomed(w, Put(w, f), f, retain);
    }
  }

  lemma ReportDoomed(w: World, i: nat, retain: bool)
    requires Doomed(w, retain)
    ensures Doomed(Step(w, PushReport(i), retain), retain)
  {
    var d := Step(w, PushReport(i), retain);
    if Running(w) && w.failed && i < |w.reports| && Room(w.link) {
      assert d.link.high[..|w.link.high|] == w.link.high;
      PutDoomed(w, d, G.ConfigResult(true), retain);
    }
  }

  lemma DoomedStep(w: World, e: Event, retain: bool)
    requires Carried(w, retain) && Doomed(w, retain)
    ensures Doomed(Step(w, e, retain), retain)
  {
    match e
    case SendStep =>
      if Running(w) {
        SendDoomed(w, retain);
      }
    case AbortSend =>
      if w.phase.Closing? && !w.sender.Idle? {
        if w.failed {
          SameDoomed(w, Step(w, e, retain), retain);
        } else if !w.sender.Starting? {
          GaveUpDoomed(w, Step(w, e, retain), retain);
        }
      }
    case WriteHead(delivered) => WriteDoomed(w, delivered, retain);
    case Answer(f) => AnswerDoomed(w, f, retain);
    case PushReport(i) => ReportDoomed(w, i, retain);
    case _ =>
  }

  lemma {:induction false} AlwaysDoomed(w: World, events: seq<Event>, retain: bool)
    requires Initial(w) && Proper(events, retain)
    ensures Doomed(Run(w, events, retain), retain)
  {
    if events != [] {
      var before := events[..|events| - 1];
      Always(w, before, retain);
      AlwaysDoomed(w, before, retain);
      DoomedStep(Run(w, before, retain), events[|events| - 1], retain);
    }
  }

  /**
   On every run, for whatever reason a call gave up mid-turn: once the next turn's start is queued,
   the gateway does not accept what is queued, and the same holds while that turn is being sent.
   */
  lemma GiveUpRefusesNext(w: World, events: seq<Event>, retain: bool)
    requires Initial(w) && Proper(events, retain)
    requires var r := Run(w, events, retain); Running(r) && r.failed && r.writing && !r.rejected
    ensures var r := Run(w, events, retain);
            && (r.sender.Starting? && CanPut(r) ==> G.AcceptAll(r.gateway, Frames(Sent(r).link.high), retain).None?)
            && (!Between(r.sender) ==> G.AcceptAll(r.gateway, Frames(r.link.high), retain).None?)
  {
    AlwaysDoomed(w, events, retain);
    var r := Run(w, events, retain);
    if r.sender.Starting? && CanPut(r) {
      var d := Sent(r);
      assert d.link.high[..|r.link.high|] == r.link.high;
      PutDoomed(r, d, NextFrame(r.sender), retain);
    }
  }

  // ---------------------------------------------------------------- crossing sessions

  /**
   On every run a frame is written in another session than the one that let it in exactly when it
   was queued after that session's queue had been drained; it is then a configuration result, and
   the session a later one. So no turn frame and no pong ever crosses.
   */
  lemma CrossesIffLate(w: World, events: seq<Event>, retain: bool, i: nat)
    requires Initial(w) && i < |Run(w, events, retain).wire|
    ensures var x := Run(w, events, retain).wire[i];
            && (x.item.session != x.session <==> x.item.late)
            && (x.item.late ==> x.item.frame == G.ConfigResult(true) && x.item.session < x.session)
  {
    AlwaysTidy(w, events, retain);
  }

  /** Event n queued this item after its session's queue had been drained. */
  ghost predicate QueuedLate(w: World, events: seq<Event>, retain: bool, item: Item, n: nat)
    requires n < |events|
  {
    var v, e := Run(w, events[..n], retain), events[n];
    e.PushReport? && e.i < |v.reports| && v.reports[e.i] == item.session && Joined(v, item.session) && Room(v.link)
  }

  ghost predicate LateExplained(w: World, events: seq<Event>, retain: bool, item: Item) {
    item.late ==> exists n :: 0 <= n < |events| && QueuedLate(w, events, retain, item, n)
  }

  lemma LateEarlier(w: World, events: seq<Event>, retain: bool, item: Item)
    requires events != [] && LateExplained(w, events[..|events| - 1], retain, item)
    ensures LateExplained(w, events, retain, item)
  {
    var before := events[..|events| - 1];
    if item.late {
      var n :| 0 <= n < |before| && QueuedLate(w, before, retain, item, n);
      assert before[..n] == events[..n];
      assert QueuedLate(w, events, retain, item, n);
    }
  }

  /** Where a late item came from: the queue before, or this event. */
  lemma QueueGrows(w: World, e: Event, retain: bool, k: nat)
    requires k < |Step(w, e, retain).link.high|
    ensures var item := Step(w, e, retain).link.high[k];
            || !item.late || item in w.link.high
            || (e.PushReport? && e.i < |w.reports| && w.reports[e.i] == item.session && Joined(w, item.session)
              && Room(w.link))
  {
    match e
    case SendStep =>
      SentQueuesOne(w);
      OneIsFresh(w, Sent(w), NextFrame(w.sender), k);
    case WriteHead(delivered) =>
      if Running(w) && w.writing && w.link.high != [] {
        assert Step(w, e, retain).link.high == w.link.high[1..];
      }
    case PushReport(i) =>
      if i < |w.reports| && k < |w.link.high| {
        assert Step(w, e, retain).link.high[k] == w.link.high[k];
      }
    case _ =>
  }

  lemma WireSame(w: World, e: Event, retain: bool)
    requires !e.WriteHead?
    ensures Step(w, e, retain).wire == w.wire
  {
    if e.SendStep? {
      SentQueuesOne(w);
    }
  }

  lemma WireGrows(w: World, e: Event, retain: bool, k: nat)
    requires k < |Step(w, e, retain).wire|
    ensures Step(w, e, retain).wire[k] in w.wire || Step(w, e, retain).wire[k].item in w.link.high
  {
    if e.WriteHead? {
      HeadWritten(w, e.delivered, retain);
    } else {
      WireSame(w, e, retain);
    }
  }

  lemma HeadWritten(w: World, delivered: bool, retain: bool)
    ensures var d := Step(w, WriteHead(delivered), retain);
            d.wire == w.wire || (w.link.high != [] && d.wire == w.wire + [Written(w.link.high[0], w.session)])
  {
  }

  lemma {:induction false} AllExplained(w: World, events: seq<Event>, retain: bool)
    requires Initial(w)
    ensures forall item :: item in Run(w, events, retain).link.high ==> LateExplained(w, events, retain, item)
    ensures forall x :: x in Run(w, events, retain).wire ==> LateExplained(w, events, retain, x.item)
  {
    if events != [] {
      var n := |events| - 1;
      var r, v := Run(w, events, retain), Run(w, events[..n], retain);
      AllExplained(w, events[..n], retain);
      forall item | item in v.link.high || exists x :: x in v.wire && x.item == item
          ensures LateExplained(w, events, retain, item) {
        LateEarlier(w, events, retain, item);
      }
      forall item | item in r.link.high ensures LateExplained(w, events, retain, item) {
        var k :| 0 <= k < |r.link.high| && r.link.high[k] == item;
        QueueGrows(v, events[n], retain, k);
        assert item.late && item !in v.link.high ==> QueuedLate(w, events, retain, item, n);
      }
      forall x | x in r.wire ensures LateExplained(w, events, retain, x.item) {
        var k :| 0 <= k < |r.wire| && r.wire[k] == x;
        WireGrows(v, events[n], retain, k);
      }
    }
  }

  /** Every frame that crosses is a result whose report saw its session's connection and was queued after the drain. */
  lemma CrossingWasQueuedLate(w: World, events: seq<Event>, retain: bool, i: nat) returns (n: nat)
    requires Initial(w) && i < |Run(w, events, retain).wire|
    requires var x := Run(w, events, retain).wire[i]; x.item.session != x.session
    ensures n < |events| && QueuedLate(w, events, retain, Run(w, events, retain).wire[i].item, n)
  {
    AlwaysTidy(w, events, retain);
    AllExplained(w, events, retain);
    var x := Run(w, events, retain).wire[i];
    assert x in Run(w, events, retain).wire;
    n :| 0 <= n < |events| && QueuedLate(w, events, retain, x.item, n);
  }

  ghost predicate ReachedBy(w: World, events: seq<Event>, retain: bool, r: World) {
    Proper(events, retain) && r == Run(w, events, retain)
  }

  /** Some run of proper turns ends here. */
  ghost predicate Reachable(w: World, retain: bool, r: World) {
    exists events :: ReachedBy(w, events, retain, r)
  }

  /** A property of states that every event but a turn's start keeps. */
  ghost predicate Closed(reach: World -> bool, retain: bool) {
    forall w: World, e: Event {:trigger Step(w, e, retain)} :: reach(w) && !e.StartSend? ==> reach(Step(w, e, retain))
  }

  lemma ReachableIsClosed(w: World, retain: bool) returns (reach: World -> bool)
    ensures Closed(reach, retain) && reach(w) && forall r :: reach(r) ==> Reachable(w, retain, r)
  {
    reach := (r: World) => Reachable(w, retain, r);
    assert ReachedBy(w, [], retain, w);
    forall r: World, e: Event | reach(r) && !e.StartSend? ensures reach(Step(r, e, retain)) {
      var events :| ReachedBy(w, events, retain, r);
      var more := events + [e];
      assert more[..|events|] == events;
      assert ReachedBy(w, more, retain, Step(r, e, retain));
    }
  }

  /** One more event of a run. */
  lemma Go(reach: World -> bool, w: World, e: Event, retain: bool) returns (r: World)
    requires Closed(reach, retain) && reach(w) && !e.StartSend?
    ensures r == Step(w, e, retain) && reach(r)
  {
    r := Step(w, e, retain);
  }

  /** The first session fails and its workers are joined. */
  lemma FirstDrained(reach: World -> bool, w: World, retain: bool) returns (r: World)
    requires Closed(reach, retain) && reach(w) && Initial(w)
    ensures reach(r) && r.phase.Drained? && r.sender.Idle? && r.link == Link(true, false, [])
      && r.session == w.session + 1
    ensures r.reports == [] && r.wire == []
  {
    r := Go(reach, w, Connect, retain);
    r := Go(reach, r, Fail, retain);
    r := Go(reach, r, Join, retain);
  }

  /** A report that sees the connection is queued although the queue has been drained. */
  lemma Reported(reach: World -> bool, w: World, retain: bool) returns (r: World)
    requires Closed(reach, retain) && reach(w) && w.phase.Drained? && w.link.conn && w.link.high == []
      && w.reports == []
    ensures reach(r) && r.phase == w.phase && r.session == w.session && r.wire == w.wire
    ensures r.link.high == [Item(G.ConfigResult(true), w.session, true)]
  {
    r := Go(reach, w, CheckReport, retain);
    assert r.reports == [w.session] && r.link == w.link;
    r := Go(reach, r, PushReport(0), retain);
  }

  /** What is queued when a session ends is written in the next one. */
  lemma WrittenNext(reach: World -> bool, w: World, item: Item, retain: bool) returns (r: World)
    requires Closed(reach, retain) && reach(w) && w.phase.Drained? && w.link.high == [item]
    ensures reach(r) && r.wire == w.wire + [Written(item, w.session + 1)]
  {
    r := Go(reach, w, Disconnect, retain);
    assert r.phase.Down? && r.link.high == [item] && r.session == w.session && r.wire == w.wire;
    r := Go(reach, r, Connect, retain);
    assert r.phase.Live? && r.writing && r.link.high == [item];
    r := Go(reach, r, WriteHead(true), retain);
  }

  /** From the beginning: a result that is reported while the first session shuts down is written in the second. */
  lemma ReportLeaksIntoNextSession(w: World, retain: bool) returns (r: World)
    requires Initial(w)
    ensures Reachable(w, retain, r)
    ensures r.wire == [Written(Item(G.ConfigResult(true), w.session + 1, true), w.session + 2)]
  {
    var reach := ReachableIsClosed(w, retain);
    r := FirstDrained(reach, w, retain);
    r := Reported(reach, r, retain);
    r := WrittenNext(reach, r, Item(G.ConfigResult(true), w.session + 1, true), retain);
  }
}

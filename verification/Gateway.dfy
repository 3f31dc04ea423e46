/** The gateway's session automaton: which frame sequences a device may send, and what it counts. */
module Gateway {
  import opened Wrappers
  import opened Pcm

  const MAX_FRAME: nat := 0x1_0000
  const MAX_WAV: nat := 0xffff_ffff - 36

  /** Frames as decoded; the flags say whether a payload is valid. */
  datatype Frame =
    | TurnStart(id: string, valid: bool)
    | AudioStart(id: string, mono16k: bool)
    | AudioStop(id: string, valid: bool)
    | Pcm(data: seq<Byte>)
    | ConfigResult(valid: bool)
    | Log(valid: bool)
    | Pong
    | Malformed

  /** One device turn in progress. */
  datatype Active = Active(id: string, open: bool, bytes: nat)

  /** A completed turn and its audio size. */
  datatype Completed = Completed(id: string, bytes: nat)

  datatype State = State(active: Option<Active>, completed: seq<Completed>)

  /** The characters with the Unicode property White_Space. */
  predicate IsSpace(c: char) {
    var x := c as int;
    || 0x09 <= x <= 0x0d || x == 0x20 || x == 0x85 || x == 0xa0 || x == 0x1680 || 0x2000 <= x <= 0x200a
    || x == 0x2028 || x == 0x2029 || x == 0x202f || x == 0x205f || x == 0x3000
  }

  /** Nothing is left of the text once white space is trimmed. */
  predicate Blank(id: string) {
    forall c :: c in id ==> IsSpace(c)
  }

  /** The state after an accepted frame; a refused one ends the session. retain: recordings are kept as files. */
  function Accept(s: State, f: Frame, retain: bool): Option<State> {
    match f
    case TurnStart(id, valid) =>
      if valid && s.active.None? && !Blank(id) then Some(s.(active := Some(Active(id, false, 0)))) else None
    case AudioStart(id, mono16k) =>
      if s.active.Some? && !s.active.value.open && s.active.value.id == id && mono16k then
        Some(s.(active := Some(s.active.value.(open := true))))
      else None
    case AudioStop(id, valid) =>
      if s.active.Some? && s.active.value.open && s.active.value.id == id && valid
         && (retain ==> s.active.value.bytes <= MAX_WAV) then
        Some(State(None, s.completed + [Completed(id, s.active.value.bytes)]))
      else None
    case Pcm(data) =>
      if s.active.None? || !s.active.value.open then Some(s)
      else if |data| > MAX_FRAME || |data| % 2 != 0 then None
      else Some(s.(active := Some(s.active.value.(bytes := s.active.value.bytes + |data|))))
    case ConfigResult(valid) => if valid then Some(s) else None
    case Log(valid) => if valid then Some(s) else None
    case Pong => Some(s)
    case Malformed => None
  }

  function AcceptAll(s: State, fs: seq<Frame>, retain: bool): Option<State> {
    if fs == [] then Some(s) else
      var before := AcceptAll(s, fs[..|fs| - 1], retain);
      if before.None? then None else Accept(before.value, fs[|fs| - 1], retain)
  }

  lemma {:induction false} AcceptFirst(s: State, fs: seq<Frame>, retain: bool)
    requires fs != []
    ensures AcceptAll(s, fs, retain) ==
      if Accept(s, fs[0], retain).None? then None else AcceptAll(Accept(s, fs[0], retain).value, fs[1..], retain)
  {
    if |fs| == 1 {
      assert fs[..0] == [] && fs[1..] == [];
    } else {
      AcceptFirst(s, fs[..|fs| - 1], retain);
      assert fs[..|fs| - 1][1..] == fs[1..][..|fs| - 2];
    }
  }

  lemma AcceptSnoc(s: State, fs: seq<Frame>, f: Frame, retain: bool)
    ensures AcceptAll(s, fs + [f], retain) ==
      if AcceptAll(s, fs, retain).None? then None else Accept(AcceptAll(s, fs, retain).value, f, retain)
  {
    assert (fs + [f])[..|fs|] == fs;
  }

  // ---------------------------------------------------------------- the session object

  class Session {
    const retain: bool
    var active: Option<Active>
    var completed: seq<Completed>
    var closed: bool

    constructor (retain: bool)
      ensures this.retain == retain && Abs() == State(None, []) && !closed
    {
      this.retain, active, completed, closed := retain, None, [], false;
    }

    function Abs(): State
      reads this
    {
      State(active, completed)
    }

    /** PCM outside an audio window is discarded; invalid PCM inside one aborts the turn and the session. */
    method Binary(data: seq<Byte>) returns (ok: bool)
      modifies this`active, this`closed
      ensures ok <==> Accept(old(Abs()), Pcm(data), retain).Some?
      ensures ok ==> Abs() == Accept(old(Abs()), Pcm(data), retain).value && closed == old(closed)
      ensures !ok ==> closed && active.None?
    {
      if active.None? || !active.value.open {
        return true;
      }
      if |data| > MAX_FRAME || |data| % 2 != 0 {
        active, closed := None, true;
        return false;
      }
      active := Some(active.value.(bytes := active.value.bytes + |data|));
      return true;
    }

    method Control(f: Frame) returns (ok: bool)
      requires !f.Pcm?
      modifies this
      ensures ok <==> Accept(old(Abs()), f, retain).Some?
      ensures ok ==> Abs() == Accept(old(Abs()), f, retain).value && closed == old(closed)
      ensures !ok ==> closed
    {
      ok := false;
      match f {
        case TurnStart(id, valid) =>
          if valid && active.None? && !Blank(id) {
            active, ok := Some(Active(id, false, 0)), true;
          }
        case AudioStart(id, mono16k) =>
          if active.Some? && !active.value.open && active.value.id == id && mono16k {
            active, ok := Some(active.value.(open := true)), true;
          }
        case AudioStop(id, valid) =>
          if active.Some? && active.value.open && active.value.id == id && valid {
            if !retain || active.value.bytes <= MAX_WAV {
              completed, active, ok := completed + [Completed(id, active.value.bytes)], None, true;
            }
          }
        case ConfigResult(valid) => ok := valid;
        case Log(valid) => ok := valid;
        case Pong => ok := true;
        case Malformed =>
      }
      if !ok {
        closed := true;
      }
    }
  }

  // ---------------------------------------------------------------- whole turns

  function Bytes(pcm: seq<seq<Byte>>): nat {
    if pcm == [] then 0 else Bytes(pcm[..|pcm| - 1]) + |pcm[|pcm| - 1]|
  }

  function PcmFrames(pcm: seq<seq<Byte>>): seq<Frame> {
    seq(|pcm|, i requires 0 <= i < |pcm| => Pcm(pcm[i]))
  }

  /** The frames of one complete turn. */
  function TurnFrames(id: string, pcm: seq<seq<Byte>>): seq<Frame> {
    [TurnStart(id, true), AudioStart(id, true)] + PcmFrames(pcm) + [AudioStop(id, true)]
  }

  ghost predicate Sendable(pcm: seq<seq<Byte>>) {
    forall i {:trigger pcm[i]} :: 0 <= i < |pcm| ==> |pcm[i]| <= MAX_FRAME && |pcm[i]| % 2 == 0
  }

  lemma {:induction false} AcceptsPcm(s: State, pcm: seq<seq<Byte>>, retain: bool)
    requires s.active.Some? && s.active.value.open
    ensures AcceptAll(s, PcmFrames(pcm), retain).Some? <==> Sendable(pcm)
    ensures Sendable(pcm) ==>
      AcceptAll(s, PcmFrames(pcm), retain)
          == Some(s.(active := Some(s.active.value.(bytes := s.active.value.bytes + Bytes(pcm)))))
  {
    if pcm != [] {
      var n := |pcm| - 1;
      AcceptsPcm(s, pcm[..n], retain);
      assert PcmFrames(pcm)[..n] == PcmFrames(pcm[..n]);
      assert forall i {:trigger pcm[i]} :: 0 <= i < n ==> pcm[..n][i] == pcm[i];
    }
  }

  /** An idle session accepts a whole turn exactly when its audio frames are sendable, and counts all of it. */
  lemma AcceptsTurn(s: State, id: string, pcm: seq<seq<Byte>>, retain: bool)
    requires s.active.None? && !Blank(id) && (retain ==> Bytes(pcm) <= MAX_WAV)
    ensures AcceptAll(s, TurnFrames(id, pcm), retain).Some? <==> Sendable(pcm)
    ensures Sendable(pcm) ==>
      AcceptAll(s, TurnFrames(id, pcm), retain) == Some(State(None, s.completed + [Completed(id, Bytes(pcm))]))
  {
    var open := State(Some(Active(id, true, 0)), s.completed);
    Opens(s, id, retain);
    AcceptsPcm(open, pcm, retain);
    AcceptJoin(s, [TurnStart(id, true), AudioStart(id, true)], PcmFrames(pcm), retain);
    AcceptSnoc(s, [TurnStart(id, true), AudioStart(id, true)] + PcmFrames(pcm), AudioStop(id, true), retain);
  }

  lemma Opens(s: State, id: string, retain: bool)
    requires s.active.None? && !Blank(id)
    ensures AcceptAll(s, [TurnStart(id, true), AudioStart(id, true)], retain)
      == Some(State(Some(Active(id, true, 0)), s.completed))
  {
    var first, second := TurnStart(id, true), AudioStart(id, true);
    AcceptSnoc(s, [], first, retain);
    AcceptSnoc(s, [first], second, retain);
    assert [] + [first] == [first] && [first] + [second] == [first, second];
  }

  lemma {:induction false} AcceptJoin(s: State, a: seq<Frame>, b: seq<Frame>, retain: bool)
    ensures AcceptAll(s, a + b, retain) ==
      if AcceptAll(s, a, retain).None? then None else AcceptAll(AcceptAll(s, a, retain).value, b, retain)
  {
    if b == [] {
      assert a + b == a;
    } else {
      AcceptJoin(s, a, b[..|b| - 1], retain);
      assert (a + b)[..|a + b| - 1] == a + b[..|b| - 1];
    }
  }

  /** A turn whose end is never sent makes the next turn's start end the session. */
  lemma UnfinishedTurnRejectsNext(s: State, id: string, next: string, retain: bool)
    requires s.active.Some?
    ensures Accept(s, TurnStart(next, true), retain).None?
  {
  }
}

/** Which whole frame sequences a session accepts, by the order and the sizes of their frames. */
module GatewayOrder {
  import opened Wrappers
  import opened Gateway

  /** The frames that begin, open and end a turn. */
  predicate IsMark(f: Frame) {
    f.TurnStart? || f.AudioStart? || f.AudioStop?
  }

  function Marks(fs: seq<Frame>): (marks: seq<Frame>)
    ensures forall j {:trigger marks[j]} :: 0 <= j < |marks| ==> IsMark(marks[j])
  {
    if fs == [] then [] else
      Marks(fs[..|fs| - 1]) + (if IsMark(fs[|fs| - 1]) then [fs[|fs| - 1]] else [])
  }

  /** The audio since the newest of them. */
  function Since(fs: seq<Frame>): nat {
    if fs == [] || IsMark(fs[|fs| - 1]) then 0
    else Since(fs[..|fs| - 1]) + (if fs[|fs| - 1].Pcm? then |fs[|fs| - 1].data| else 0)
  }

  /** Mark j is the start, the opening or the end of a turn by its place, and carries that turn's identifier. */
  predicate InPlace(marks: seq<Frame>, j: nat)
    requires j < |marks|
  {
    var f := marks[j];
    if j % 3 == 0 then f.TurnStart? && f.valid && !Blank(f.id)
    else if j % 3 == 1 then f.AudioStart? && f.mono16k && marks[j - 1].TurnStart? && f.id == marks[j - 1].id
    else f.AudioStop? && f.valid && marks[j - 2].TurnStart? && f.id == marks[j - 2].id
  }

  ghost predicate AllInPlace(marks: seq<Frame>) {
    forall j: nat {:trigger InPlace(marks, j)} :: j < |marks| ==> InPlace(marks, j)
  }

  /** What any other frame, and the size of the audio, must satisfy where it stands. */
  predicate Fine(before: seq<Frame>, f: Frame, retain: bool) {
    match f
    case Pcm(data) => |Marks(before)| % 3 == 2 ==> |data| <= 0x1_0000 && |data| % 2 == 0
    case AudioStop(_, _) => retain ==> Since(before) <= 0xffff_ffff - 36
    case ConfigResult(valid) => valid
    case Log(valid) => valid
    case Malformed => false
    case _ => true
  }

  ghost predicate AllFine(fs: seq<Frame>, retain: bool) {
    forall p: nat {:trigger fs[p]} :: p < |fs| ==> Fine(fs[..p], fs[p], retain)
  }

  /** The turns that end, each with the audio between its opening and its end. */
  function Turns(fs: seq<Frame>): seq<Completed> {
    if fs == [] then [] else
      var before, f := fs[..|fs| - 1], fs[|fs| - 1];
      Turns(before) + (if f.AudioStop? then [Completed(f.id, Since(before))] else [])
  }

  /** The turn in progress after the marks of accepted frames and the audio since the newest. */
  function InProgress(marks: seq<Frame>, since: nat): Option<Active> {
    if |marks| % 3 == 1 && IsMark(marks[|marks| - 1]) then Some(Active(marks[|marks| - 1].id, false, 0))
    else if |marks| % 3 == 2 && IsMark(marks[|marks| - 1]) then Some(Active(marks[|marks| - 1].id, true, since))
    else None
  }

  lemma MarksNext(fs: seq<Frame>, f: Frame)
    ensures Marks(fs + [f]) == Marks(fs) + (if IsMark(f) then [f] else [])
    ensures Since(fs + [f]) == if IsMark(f) then 0 else Since(fs) + (if f.Pcm? then |f.data| else 0)
    ensures Turns(fs + [f]) == Turns(fs) + (if f.AudioStop? then [Completed(f.id, Since(fs))] else [])
  {
    assert (fs + [f])[..|fs|] == fs;
  }

  lemma PlaceNext(marks: seq<Frame>, f: Frame)
    ensures AllInPlace(marks + [f]) <==> AllInPlace(marks) && InPlace(marks + [f], |marks|)
  {
    forall j: nat | j < |marks| ensures InPlace(marks + [f], j) == InPlace(marks, j) {
    }
  }

  lemma FineNext(fs: seq<Frame>, f: Frame, retain: bool)
    ensures AllFine(fs + [f], retain) <==> AllFine(fs, retain) && Fine(fs, f, retain)
  {
    var all := fs + [f];
    assert all[..|fs|] == fs && all[|fs|] == f;
    forall p: nat | p < |fs| ensures all[..p] == fs[..p] && all[p] == fs[p] {
    }
    if AllFine(all, retain) {
      assert Fine(all[..|fs|], all[|fs|], retain);
      forall p: nat | p < |fs| ensures Fine(fs[..p], fs[p], retain) {
        assert Fine(all[..p], all[p], retain);
      }
    }
  }

  lemma StartAccepted(marks: seq<Frame>, since: nat, done: seq<Completed>, f: Frame, retain: bool)
    requires AllInPlace(marks) && f.TurnStart?
    ensures var o := Accept(State(InProgress(marks, since), done), f, retain);
            && (o.Some? <==> InPlace(marks + [f], |marks|))
            && (o.Some? ==> o.value == State(InProgress(marks + [f], 0), done))
  {
    assert |marks| % 3 != 0 ==> InPlace(marks, |marks| - 1);
  }

  lemma OpeningAccepted(marks: seq<Frame>, since: nat, done: seq<Completed>, f: Frame, retain: bool)
    requires AllInPlace(marks) && f.AudioStart?
    ensures var o := Accept(State(InProgress(marks, since), done), f, retain);
            && (o.Some? <==> InPlace(marks + [f], |marks|))
            && (o.Some? ==> o.value == State(InProgress(marks + [f], 0), done))
  {
    assert |marks| % 3 != 0 ==> InPlace(marks, |marks| - 1);
  }

  lemma EndAccepted(marks: seq<Frame>, since: nat, done: seq<Completed>, f: Frame, retain: bool)
    requires AllInPlace(marks) && f.AudioStop?
    ensures var o := Accept(State(InProgress(marks, since), done), f, retain);
            && (o.Some? <==> InPlace(marks + [f], |marks|) && (retain ==> since <= 0xffff_ffff - 36))
            && (o.Some? ==> o.value == State(InProgress(marks + [f], 0), done + [Completed(f.id, since)]))
  {
    assert |marks| % 3 != 0 ==> InPlace(marks, |marks| - 1);
    assert |marks| % 3 == 2 ==> InPlace(marks, |marks| - 2);
  }

  lemma AudioAccepted(marks: seq<Frame>, since: nat, done: seq<Completed>, f: Frame, retain: bool)
    requires AllInPlace(marks) && f.Pcm?
    ensures var o := Accept(State(InProgress(marks, since), done), f, retain);
            && (o.Some? <==> (|marks| % 3 == 2 ==> |f.data| <= 0x1_0000 && |f.data| % 2 == 0))
            && (o.Some? ==> o.value == State(InProgress(marks, since + |f.data|), done))
  {
    assert |marks| % 3 != 0 ==> InPlace(marks, |marks| - 1);
  }

  /** One more frame is accepted exactly when it is in place and fine, and leads to this state. */
  ghost predicate Leads(done: seq<Completed>, fs: seq<Frame>, f: Frame, retain: bool) {
    var o := Accept(State(InProgress(Marks(fs), Since(fs)), done), f, retain);
    && (o.Some? <==> Fine(fs, f, retain) && (IsMark(f) ==> InPlace(Marks(fs) + [f], |Marks(fs)|)))
    && (o.Some? ==> o.value == State(InProgress(Marks(fs + [f]), Since(fs + [f])),
                                     done + (if f.AudioStop? then [Completed(f.id, Since(fs))] else [])))
  }

  lemma MarkLeads(done: seq<Completed>, fs: seq<Frame>, f: Frame, retain: bool)
    requires AllInPlace(Marks(fs)) && IsMark(f)
    ensures Leads(done, fs, f, retain)
  {
    MarksNext(fs, f);
    assert done + [] == done;
    match f
    case TurnStart(_, _) => StartAccepted(Marks(fs), Since(fs), done, f, retain);
    case AudioStart(_, _) => OpeningAccepted(Marks(fs), Since(fs), done, f, retain);
    case AudioStop(_, _) => EndAccepted(Marks(fs), Since(fs), done, f, retain);
  }

  lemma OtherLeads(done: seq<Completed>, fs: seq<Frame>, f: Frame, retain: bool)
    requires AllInPlace(Marks(fs)) && !IsMark(f)
    ensures Leads(done, fs, f, retain)
  {
    MarksNext(fs, f);
    assert done + [] == done && Marks(fs) + [] == Marks(fs);
    if f.Pcm? {
      AudioAccepted(Marks(fs), Since(fs), done, f, retain);
    }
  }

  /**
   Which whole sequences an idle session accepts: the marks are starts, openings and ends of one turn after
   another, each turn's three with one identifier, and every other frame and size is fine where it stands.
   The turns completed are exactly those that end, with the audio between their opening and their end.
   */
  lemma {:induction false} AcceptsIffInOrder(s: State, fs: seq<Frame>, retain: bool)
    requires s.active.None?
    ensures AcceptAll(s, fs, retain).Some? <==> InOrder(fs, retain)
    ensures AcceptAll(s, fs, retain).Some? ==>
              AcceptAll(s, fs, retain).value == State(InProgress(Marks(fs), Since(fs)), s.completed + Turns(fs))
  {
    if fs != [] {
      var before, f := fs[..|fs| - 1], fs[|fs| - 1];
      assert before + [f] == fs;
      AcceptsIffInOrder(s, before, retain);
      AcceptSnoc(s, before, f, retain);
      OrderNext(before, f, retain);
      if InOrder(before, retain) {
        if IsMark(f) {
          MarkLeads(s.completed + Turns(before), before, f, retain);
        } else {
          OtherLeads(s.completed + Turns(before), before, f, retain);
        }
        TurnsNext(s.completed, before, f);
      }
    }
  }

  lemma TurnsNext(done: seq<Completed>, fs: seq<Frame>, f: Frame)
    ensures done + Turns(fs + [f]) == done + Turns(fs) + (if f.AudioStop? then [Completed(f.id, Since(fs))] else [])
  {
    MarksNext(fs, f);
    Regroup(done, Turns(fs), if f.AudioStop? then [Completed(f.id, Since(fs))] else []);
  }

  lemma Regroup(a: seq<Completed>, b: seq<Completed>, c: seq<Completed>)
    ensures a + (b + c) == a + b + c
  {
  }

  ghost predicate InOrder(fs: seq<Frame>, retain: bool) {
    AllInPlace(Marks(fs)) && AllFine(fs, retain)
  }

  lemma OrderNext(fs: seq<Frame>, f: Frame, retain: bool)
    ensures InOrder(fs + [f], retain) <==>
            InOrder(fs, retain) && Fine(fs, f, retain) && (IsMark(f) ==> InPlace(Marks(fs) + [f], |Marks(fs)|))
  {
    MarksNext(fs, f);
    FineNext(fs, f, retain);
    if IsMark(f) {
      PlaceNext(Marks(fs), f);
    } else {
      assert Marks(fs + [f]) == Marks(fs);
    }
  }
}

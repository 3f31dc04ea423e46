/** What a configuration offer is answered with, what it may put in force, and which revision is held. */
module RuntimeOffers {
  import opened Wrappers
  import opened Int64
  import opened RuntimeConfig
  import E = Endpointing

  // ---------------------------------------------------------------- the answer to an offer

  /** The revision an offer is compared with. */
  function Latest(r: Rt): Settings {
    match r.pending
    case Some(p) => p.settings
    case None => r.settings
  }

  /** Anything replaces revision 0; any other gives way to a newer one alone. */
  predicate Renews(r: Rt, s: Settings) {
    Latest(r).version == 0 || s.version > Latest(r).version
  }

  predicate Repeats(r: Rt, s: Settings) {
    Latest(r).version != 0 && s == Latest(r)
  }

  /** A pre-roll whose duration does not wrap to a negative one. */
  predicate HasRoom(s: Settings) {
    Wrap(s.wake.preRollMs * 1_000_000) >= 0
  }

  /** The larger of what the ring holds and what the pre-roll asks for. */
  function Enough(ring: nat, s: Settings): int {
    var asked := SamplesIn(16_000, Wrap(s.wake.preRollMs * 1_000_000));
    if asked > ring then asked else ring
  }

  predicate Usable(s: Settings, env: Env) {
    env.modelKnown && env.engineReady && HasRoom(s)
  }

  /** Which answer an uninterrupted offer gets, for every reason. */
  lemma AnswerIff(r: Rt, s: Settings, env: Env)
    requires r.decided.None?
    ensures ApplyOf(r, None, env) == (r, Rejected(InvalidConfig))
    ensures var a := ApplyOf(r, Some(s), env).1;
            && (a == Rejected(StaleVersion) <==> Latest(r).version != 0 && s.version < Latest(r).version)
            && (a == Rejected(ConflictingVersion) <==>
                Latest(r).version != 0 && s.version == Latest(r).version && s != Latest(r))
            && (a == Rejected(ModelUnavailable) <==>
                Renews(r, s) && (!env.modelKnown || (HasRoom(s) && !env.engineReady)))
            && (a == Rejected(ResourceUnavailable) <==> Renews(r, s) && env.modelKnown && !HasRoom(s))
            && (a == Rejected(PersistenceFailed) <==> Renews(r, s) && Usable(s, env) && !r.active && !env.save.Saved?)
            && (a == Held <==>
                (Repeats(r, s) && r.pending.Some?) || (Renews(r, s) && Usable(s, env) && r.active))
            && (a == Applied <==>
                (Repeats(r, s) && r.pending.None?) || (Renews(r, s) && Usable(s, env) && !r.active && env.save.Saved?))
            && a != Rejected(InvalidConfig)
  {
  }

  /**
   A renewing offer that is applied is in force and persisted, runs the engine prepared for it and
   closes the old one.
   */
  lemma AppliedEffects(r: Rt, s: Settings, env: Env)
    requires r.decided.None? && Renews(r, s) && ApplyOf(r, Some(s), env).1.Applied?
    ensures var d := ApplyOf(r, Some(s), env).0;
            && d.settings == s && d.stored == Some(s) && d.pending == r.pending && d.active == r.active
            && d.engine == r.prepared && d.prepared == r.prepared + 1 && d.closed == r.closed + multiset{r.engine}
            && E.NextConfig(d.ctl) == s.endpointing && d.ctl.turn == r.ctl.turn && d.ring == Enough(r.ring, s)
  {
  }

  /** One that is held takes the place of what was held before, whose engine is closed, and changes nothing in force. */
  lemma HeldEffects(r: Rt, s: Settings, env: Env)
    requires r.decided.None? && Renews(r, s) && ApplyOf(r, Some(s), env).1.Held?
    ensures var d := ApplyOf(r, Some(s), env).0;
            && d.pending == Some(Pending(s, r.prepared)) && d.prepared == r.prepared + 1 && d.ring == Enough(r.ring, s)
            && d == r.(pending := d.pending, prepared := d.prepared, ring := d.ring, closed := d.closed)
            && d.closed == r.closed + (if r.pending.Some? then multiset{r.pending.value.engine} else multiset{})
  {
  }

  /** One whose save fails closes the engine prepared for it and changes nothing in force. */
  lemma FailedEffects(r: Rt, s: Settings, env: Env)
    requires r.decided.None? && ApplyOf(r, Some(s), env).1 == Rejected(PersistenceFailed)
    ensures var d := ApplyOf(r, Some(s), env).0;
            && d.closed == r.closed + multiset{r.prepared} && d.prepared == r.prepared + 1
            && d == r.(stored := d.stored, prepared := d.prepared, ring := d.ring, closed := d.closed)
  {
  }

  /** Any other rejection, and the repetition of a revision, changes at most the ring's size. */
  lemma RejectedEffects(r: Rt, s: Settings, env: Env)
    requires r.decided.None? && ApplyOf(r, Some(s), env).1 != Rejected(PersistenceFailed)
    requires ApplyOf(r, Some(s), env).1.Rejected? || !Renews(r, s)
    ensures var d := ApplyOf(r, Some(s), env).0;
            d == r.(ring := d.ring) && (d.ring != r.ring ==> env.modelKnown && !env.engineReady)
  {
  }

  // ---------------------------------------------------------------- what can come into force

  /** The revision was offered while its model was known, its engine prepared and its pre-roll had room. */
  ghost predicate Vetted(events: seq<Event>, s: Settings) {
    exists i {:trigger events[i]} :: 0 <= i < |events| && events[i].Offer? && events[i].candidate == Some(s)
      && Usable(s, events[i].env)
  }

  /** Everything in force, persisted, held or decided was there at the beginning or has been vetted. */
  ghost predicate AllVetted(r: Rt, events: seq<Event>, d: Rt) {
    && (d.settings == r.settings || Vetted(events, d.settings))
    && (d.stored == r.stored || (d.stored.Some? && Vetted(events, d.stored.value)))
    && (d.pending.Some? ==> Vetted(events, d.pending.value.settings))
    && (d.decided.Some? ==> Vetted(events, d.decided.value.settings))
  }

  /** What one event can bring into sight: what was there, or the revision it offers. */
  ghost predicate Brings(d: Rt, e: Event, next: Rt) {
    && (next.settings == d.settings || (d.decided.Some? && next.settings == d.decided.value.settings))
    && (next.stored == d.stored || (d.decided.Some? && next.stored == Some(d.decided.value.settings)))
    && (next.pending.Some? ==>
          next.pending == d.pending || (e.Offer? && e.candidate == Some(next.pending.value.settings)
            && Usable(next.pending.value.settings, e.env)))
    && (next.decided.Some? ==>
          || next.decided == d.decided
          || (d.pending.Some? && next.decided.value.settings == d.pending.value.settings)
          || (e.Offer? && e.candidate == Some(next.decided.value.settings)
              && Usable(next.decided.value.settings, e.env)))
  }

  lemma StepBrings(score: E.Detector, d: Rt, e: Event)
    ensures Brings(d, e, Step(score, d, e))
  {
    if e.Offer? {
      OfferBrings(score, d, e);
    } else if e.Commit? {
      CommitBrings(score, d, e);
    }
  }

  lemma OfferBrings(score: E.Detector, d: Rt, e: Event)
    requires e.Offer?
    ensures Brings(d, e, Step(score, d, e))
  {
  }

  lemma CommitBrings(score: E.Detector, d: Rt, e: Event)
    requires e.Commit?
    ensures Brings(d, e, Step(score, d, e))
  {
  }

  lemma VettedLonger(events: seq<Event>, e: Event, s: Settings)
    ensures Vetted(events, s) ==> Vetted(events + [e], s)
    ensures e.Offer? && e.candidate == Some(s) && Usable(s, e.env) ==> Vetted(events + [e], s)
  {
    var all := events + [e];
    assert all[|events|] == e;
    forall i | 0 <= i < |events| ensures all[i] == events[i] {
    }
  }

  lemma BringsVetted(r: Rt, events: seq<Event>, d: Rt, e: Event, next: Rt)
    requires AllVetted(r, events, d) && Brings(d, e, next)
    ensures AllVetted(r, events + [e], next)
  {
    forall s: Settings
      ensures Vetted(events, s) ==> Vetted(events + [e], s)
      ensures e.Offer? && e.candidate == Some(s) && Usable(s, e.env) ==> Vetted(events + [e], s)
    {
      VettedLonger(events, e, s);
    }
  }

  /** On every run, nothing comes into force, into the store or into waiting unless it was vetted when offered. */
  lemma {:induction false} AlwaysVetted(score: E.Detector, r: Rt, events: seq<Event>)
    requires r.pending.None? && r.decided.None?
    ensures AllVetted(r, events, Run(score, r, events))
  {
    if events != [] {
      var before, e := events[..|events| - 1], events[|events| - 1];
      AlwaysVetted(score, r, before);
      StepBrings(score, Run(score, r, before), e);
      BringsVetted(r, before, Run(score, r, before), e, Step(score, Run(score, r, before), e));
      assert before + [e] == events;
    }
  }

  // ---------------------------------------------------------------- which revision is held

  /** An offer answered that it is held. */
  predicate AnsweredHeld(r: Rt, e: Event) {
    e.Offer? && r.decided.None? && ApplyOf(r, e.candidate, e.env).1 == Held
  }

  /** A commit of what is held, which ends its waiting. */
  predicate EndsWaiting(r: Rt, e: Event) {
    e.Commit? && r.decided.Some? && r.decided.value.held
  }

  ghost predicate Holds(r: Rt, e: Event, d: Rt) {
    if AnsweredHeld(r, e) then d.pending.Some? && e.candidate == Some(d.pending.value.settings)
    else if EndsWaiting(r, e) then d.pending.None?
    else d.pending == r.pending
  }

  lemma HoldsStep(score: E.Detector, r: Rt, e: Event)
    ensures Holds(r, e, Step(score, r, e))
  {
  }

  /** Event i offered s and was answered Held, and since then no other was and nothing held was committed. */
  ghost predicate NewestHeld(at: nat -> Rt, events: seq<Event>, i: nat, n: nat, s: Settings)
    requires i < n <= |events|
  {
    && AnsweredHeld(at(i), events[i]) && events[i].candidate == Some(s)
    && forall k: nat {:trigger events[k]} :: i < k < n ==>
         !AnsweredHeld(at(k), events[k]) && !EndsWaiting(at(k), events[k])
  }

  lemma {:induction false} HeldHistory(at: nat -> Rt, events: seq<Event>, n: nat) returns (i: nat)
    requires n <= |events| && forall k :: 0 <= k < n ==> Holds(at(k), events[k], at(k + 1))
    requires at(0).pending.None?
    ensures at(n).pending.Some? ==> i < n && NewestHeld(at, events, i, n, at(n).pending.value.settings)
  {
    i := n;
    if n > 0 {
      assert Holds(at(n - 1), events[n - 1], at(n));
      if AnsweredHeld(at(n - 1), events[n - 1]) {
        i := n - 1;
      } else {
        i := HeldHistory(at, events, n - 1);
      }
    }
  }

  lemma {:induction false} HeldSince(at: nat -> Rt, events: seq<Event>, i: nat, n: nat, s: Settings)
    requires i < n <= |events| && forall k :: 0 <= k < n ==> Holds(at(k), events[k], at(k + 1))
    requires NewestHeld(at, events, i, n, s)
    ensures at(n).pending.Some? && at(n).pending.value.settings == s
  {
    assert Holds(at(n - 1), events[n - 1], at(n));
    if i < n - 1 {
      HeldSince(at, events, i, n - 1, s);
    }
  }

  lemma TraceHolds(score: E.Detector, r: Rt, events: seq<Event>, n: nat)
    requires n < |events|
    ensures var at := Trace(score, r, events); Holds(at(n), events[n], at(n + 1))
  {
    assert events[..n + 1][..n] == events[..n];
    HoldsStep(score, Run(score, r, events[..n]), events[n]);
  }

  /**
   On every run from a beginning at which nothing waits: what is held is the newest revision answered
   Held, and it is held exactly until a commit of it.
   */
  lemma HeldIffNewest(score: E.Detector, r: Rt, events: seq<Event>, at: nat -> Rt, s: Settings)
    requires r.pending.None? && at == Trace(score, r, events)
    ensures var d := Run(score, r, events);
            (d.pending.Some? && d.pending.value.settings == s) <==>
            exists i: nat :: i < |events| && NewestHeld(at, events, i, |events|, s)
  {
    var n := |events|;
    assert events[..n] == events && at(n) == Run(score, r, events) && at(0) == r;
    forall k | 0 <= k < n ensures Holds(at(k), events[k], at(k + 1)) {
      TraceHolds(score, r, events, k);
    }
    var i := HeldHistory(at, events, n);
    forall j: nat | j < n && NewestHeld(at, events, j, n, s)
      ensures at(n).pending.Some? && at(n).pending.value.settings == s
    {
      HeldSince(at, events, j, n, s);
    }
  }
}

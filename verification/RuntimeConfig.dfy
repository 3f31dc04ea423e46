/** The configuration protocol: revisions are applied at idle boundaries, persisted first, and never regress. */
module RuntimeConfig {
  import opened Wrappers
  import opened Int64
  import W = Wake
  import E = Endpointing

  datatype Settings = Settings(version: nat, engine: string, model: string, wake: W.Config, endpointing: E.Config,
      logs: int)

  /** A staged revision and the wake engine prepared for it. */
  datatype Pending = Pending(settings: Settings, engine: nat)

  /**
   What the holder of the configuration lock will apply, having found the coordinator idle; held if
   it was the pending one.
   */
  datatype Decision = Decision(settings: Settings, engine: nat, held: bool)

  /**
   The configuration state with what it governs: the persisted revision, the installed engine, every
   closing of an engine out of all prepared ones, the pre-roll capacity, the turn and its controller.
   */
  datatype Rt = Rt(settings: Settings, stored: Option<Settings>, pending: Option<Pending>, decided: Option<Decision>,
                   engine: nat, closed: multiset<nat>, prepared: nat, ring: nat, active: bool, ctl: E.Ctl)

  datatype Code = InvalidConfig | StaleVersion | ConflictingVersion | ModelUnavailable | ResourceUnavailable
      | PersistenceFailed
  datatype Result = Applied | Held | Rejected(code: Code)

  /** The replacement of the persisted file is a rename; an error can also come after it. */
  datatype SaveOutcome = Saved | FailedBeforeRename | FailedAfterRename

  /** What the environment decides during one call. */
  datatype Env = Env(modelKnown: bool, engineReady: bool, save: SaveOutcome)

  const READY := Env(true, true, Saved)

  // ---------------------------------------------------------------- version order

  datatype Order = Replaces | Stale | Conflicts

  function Compare(current: Settings, candidate: Settings): Order {
    if candidate.version < current.version then Stale
    else if candidate.version == current.version && candidate != current then Conflicts
    else Replaces
  }

  /** Equal revisions must be identical; otherwise only newer ones replace. */
  lemma CompareIsOrder(a: Settings, b: Settings)
    ensures Compare(a, b).Replaces? <==> b == a || b.version > a.version
    ensures Compare(a, b).Replaces? && Compare(b, a).Replaces? <==> a == b
  {
  }

  // ---------------------------------------------------------------- sections as functions

  function Duration(ms: nat): int {
    Wrap(ms * NS_PER_MS)
  }

  function Capacity(ms: nat): int {
    SamplesIn(RATE, Duration(ms))
  }

  function Grown(ring: nat, ms: nat): nat {
    if Capacity(ms) > ring then Capacity(ms) else ring
  }

  /** The revision a candidate is compared with: the pending one if there is one. */
  function Newest(r: Rt): Settings {
    if r.pending.Some? then r.pending.value.settings else r.settings
  }

  function Persisted(r: Rt, s: Settings, save: SaveOutcome): Rt {
    if save.FailedBeforeRename? then r else r.(stored := Some(s))
  }

  /** Save, stage the endpointing settings, swap the engine and close the old one. */
  function Installed(r: Rt, s: Settings, engine: nat, save: SaveOutcome): Rt {
    var p := Persisted(r, s, save);
    if !save.Saved? then p
    else p.(ctl := E.Staged(p.ctl, s.endpointing), closed := p.closed + multiset{p.engine}, engine := engine,
      settings := s)
  }

  function PendingClosed(r: Rt): multiset<nat> {
    if r.pending.Some? then r.closed + multiset{r.pending.value.engine} else r.closed
  }

  /** Everything up to the idle check, which decides between holding the candidate and applying it. */
  function Checked(r: Rt, candidate: Option<Settings>, env: Env): (Rt, Option<Result>) {
    if candidate.None? then (r, Some(Rejected(InvalidConfig))) else
      var s, current := candidate.value, Newest(r);
      if current.version != 0 && Compare(current, s).Stale? then (r, Some(Rejected(StaleVersion)))
      else if current.version != 0 && Compare(current, s).Conflicts? then (r, Some(Rejected(ConflictingVersion)))
      else if current.version != 0 && s.version == current.version then
        (r, Some(if r.pending.Some? then Held else Applied))
      else if !env.modelKnown then (r, Some(Rejected(ModelUnavailable)))
      else if Duration(s.wake.preRollMs) < 0 then (r, Some(Rejected(ResourceUnavailable)))
      else
        var grown := r.(ring := Grown(r.ring, s.wake.preRollMs));
        if !env.engineReady then (grown, Some(Rejected(ModelUnavailable)))
        else Decided(grown.(prepared := r.prepared + 1), s, r.prepared)
  }

  function Decided(r: Rt, s: Settings, engine: nat): (Rt, Option<Result>) {
    if r.active then (r.(pending := Some(Pending(s, engine)), closed := PendingClosed(r)), Some(Held))
    else (r.(decided := Some(Decision(s, engine, false))), None)
  }

  /** Everything after the idle check, whether or not the coordinator is still idle. */
  function Committed(r: Rt, save: SaveOutcome): (Rt, Result)
    requires r.decided.Some?
  {
    var p := r.decided.value;
    var d := Installed(r, p.settings, p.engine, save).(decided := None, pending := if p.held then None else r.pending);
    if save.Saved? then (d, Applied) else (d.(closed := d.closed + multiset{p.engine}), Rejected(PersistenceFailed))
  }

  /** A whole call without interruption. */
  function ApplyOf(r: Rt, candidate: Option<Settings>, env: Env): (Rt, Result) {
    var (d, result) := Checked(r, candidate, env);
    if result.Some? || d.decided.None? then (d, if result.Some? then result.value else Applied)
      else Committed(d, env.save)
  }

  function PendingChecked(r: Rt): Rt {
    if r.pending.None? || r.active then r
    else r.(decided := Some(Decision(r.pending.value.settings, r.pending.value.engine, true)))
  }

  function ApplyPendingOf(r: Rt, save: SaveOutcome): Rt {
    if r.pending.None? || r.active then r else Committed(PendingChecked(r), save).0
  }

  // ---------------------------------------------------------------- the object

  class DeviceRuntimeConfig {
    const controller: E.Controller
    var settings: Settings
    var stored: Option<Settings>
    var pending: Option<Settings>
    var pendingEngine: nat
    var engine: nat
    var decided: Option<Decision>
    var closed: multiset<nat>
    var prepared: nat
    var ring: nat
    var active: bool

    constructor (settings: Settings, stored: Option<Settings>, controller: E.Controller, ring: nat)
      ensures this.controller == controller
      ensures Abs() == Rt(settings, stored, None, None, 0, multiset{}, 1, ring, false, controller.Abs())
    {
      this.settings, this.stored, this.controller, this.ring := settings, stored, controller, ring;
      pending, pendingEngine, decided, engine, closed, prepared, active := None, 0, None, 0, multiset{}, 1, false;
    }

    function Abs(): Rt
      reads this, controller
    {
      Rt(settings, stored, if pending.Some? then Some(Pending(pending.value, pendingEngine)) else None, decided,
         engine, closed, prepared, ring, active, controller.Abs())
    }

    method Save(value: Settings, outcome: SaveOutcome) returns (ok: bool)
      modifies this`stored
      ensures ok <==> outcome.Saved?
      ensures Abs() == Persisted(old(Abs()), value, outcome)
    {
      if !outcome.FailedBeforeRename? {
        stored := Some(value);
      }
      ok := outcome.Saved?;
    }

    method ApplyLocked(candidate: Settings, next: nat, save: SaveOutcome) returns (ok: bool)
      modifies this`stored, this`settings, this`engine, this`closed, controller
      ensures ok <==> save.Saved?
      ensures Abs() == Installed(old(Abs()), candidate, next, save)
    {
      ok := Save(candidate, save);
      if !ok {
        return;
      }
      var held := controller.StageValidatedConfig(candidate.endpointing);
      closed, engine := closed + multiset{engine}, next;
      settings := candidate;
    }

    /** The first locked stretch of an offer: no result means that it found the coordinator idle. */
    method Check(candidate: Option<Settings>, env: Env) returns (result: Option<Result>)
      modifies this
      ensures (Abs(), result) == Checked(old(Abs()), candidate, env)
      ensures result.None? ==> decided.Some?
    {
      if candidate.None? {
        return Some(Rejected(InvalidConfig));
      }
      var s, current := candidate.value, if pending.Some? then pending.value else settings;
      if current.version != 0 {
        match Compare(current, s)
        case Stale => return Some(Rejected(StaleVersion));
        case Conflicts => return Some(Rejected(ConflictingVersion));
        case Replaces =>
        if s.version == current.version {
          return Some(if pending.Some? then Held else Applied);
        }
      }
      if !env.modelKnown {
        return Some(Rejected(ModelUnavailable));
      }
      if Duration(s.wake.preRollMs) < 0 {
        return Some(Rejected(ResourceUnavailable));
      }
      ring := Grown(ring, s.wake.preRollMs);
      if !env.engineReady {
        return Some(Rejected(ModelUnavailable));
      }
      var next := prepared;
      prepared := prepared + 1;
      if active {
        if pending.Some? {
          closed := closed + multiset{pendingEngine};
        }
        pending, pendingEngine := Some(s), next;
        return Some(Held);
      }
      decided := Some(Decision(s, next, false));
      return None;
    }

    /** The second stretch, during which a turn may have started. */
    method Commit(save: SaveOutcome) returns (result: Result)
      requires decided.Some?
      modifies this, controller
      ensures (Abs(), result) == Committed(old(Abs()), save)
    {
      var d := decided.value;
      var ok := ApplyLocked(d.settings, d.engine, save);
      if !ok {
        closed := closed + multiset{d.engine};
      }
      if d.held {
        pending := None;
      }
      decided := None;
      return if ok then Applied else Rejected(PersistenceFailed);
    }

    method Apply(candidate: Option<Settings>, env: Env) returns (result: Result)
      requires decided.None?
      modifies this, controller
      ensures (Abs(), result) == ApplyOf(old(Abs()), candidate, env)
      ensures decided.None?
    {
      var early := Check(candidate, env);
      if early.Some? {
        return early.value;
      }
      result := Commit(env.save);
    }

    method ApplyPending(save: SaveOutcome)
      requires decided.None?
      modifies this, controller
      ensures Abs() == ApplyPendingOf(old(Abs()), save)
      ensures decided.None?
    {
      if pending.None? || active {
        return;
      }
      decided := Some(Decision(pending.value, pendingEngine, true));
      var result := Commit(save);
    }
  }

  // ---------------------------------------------------------------- runs

  /**
   An offer and the retry of a pending revision are two steps each, an idle check and a commit; the
   lock they hold in between keeps other offers and retries out, but not the turn. EndTurn and
   Disconnect become idle and check at once; Idle only becomes idle.
   */
  datatype Event =
    | Offer(candidate: Option<Settings>, env: Env)
    | Retry
    | Commit(save: SaveOutcome)
    | StartTurn(preRoll: nat)
    | Frame(samples: seq<int>)
    | EndTurn
    | Disconnect
    | Idle

  function Retried(r: Rt): Rt {
    if r.decided.Some? then r else PendingChecked(r)
  }

  function Step(score: E.Detector, r: Rt, e: Event): Rt {
    match e
    case Offer(c, env) => if r.decided.Some? then r else Checked(r, c, env).0
    case Retry => Retried(r)
    case Commit(save) => if r.decided.Some? then Committed(r, save).0 else r
    case StartTurn(n) => if r.active || r.ctl.InTurn() then r else r.(active := true, ctl := E.Started(r.ctl, n))
    case Frame(f) => r.(ctl := E.Observed(score, r.ctl, f).0)
    case EndTurn => Retried(r.(active := false))
    case Disconnect => Retried(r.(active := false, ctl := E.Finished(r.ctl)))
    case Idle => r.(active := false)
  }

  function Run(score: E.Detector, r: Rt, events: seq<Event>): Rt {
    if events == [] then r else Step(score, Run(score, r, events[..|events| - 1]), events[|events| - 1])
  }

  /** How often an engine is installed, pending, about to be installed or has been closed. */
  function Uses(r: Rt, e: nat): nat {
    r.closed[e] + (if e == r.engine then 1 else 0)
    + (if r.pending.Some? && e == r.pending.value.engine then 1 else 0)
    + (if r.decided.Some? && !r.decided.value.held && e == r.decided.value.engine then 1 else 0)
  }

  /** Every prepared engine is exactly one of installed, pending, about to be installed and closed once. */
  ghost predicate EnginesAccounted(r: Rt) {
    && (forall e: nat {:trigger Uses(r, e)} :: Uses(r, e) == if e < r.prepared then 1 else 0)
    && (r.decided.Some? && r.decided.value.held ==>
      r.pending == Some(Pending(r.decided.value.settings, r.decided.value.engine)))
  }

  ghost predicate Fits(r: Rt, s: Settings) {
    Capacity(s.wake.preRollMs) <= r.ring
  }

  /** The ring covers every revision in sight, and the next turn's endpointing is the applied one. */
  ghost predicate Covered(r: Rt) {
    && Fits(r, r.settings)
    && (r.pending.Some? ==> Fits(r, r.pending.value.settings))
    && (r.decided.Some? ==> Fits(r, r.decided.value.settings))
    && E.NextConfig(r.ctl) == r.settings.endpointing
  }

  ghost predicate Sound(r: Rt) {
    EnginesAccounted(r) && Covered(r)
  }

  /** What waits to be applied is newer than what is applied, and waits only for a turn or for its commit. */
  ghost predicate Forward(r: Rt) {
    && (r.pending.Some? ==> r.pending.value.settings.version > r.settings.version)
    && (r.pending.Some? ==> r.active || (r.decided.Some? && r.decided.value.held))
    && (r.decided.Some? ==> r.decided.value.settings.version > r.settings.version)
    && (r.decided.Some? && r.decided.value.held ==>
      r.pending.Some? && r.pending.value.settings == r.decided.value.settings)
    && (r.decided.Some? && !r.decided.value.held ==> r.pending.None?)
  }

  lemma StagedIsNext(ctl: E.Ctl, config: E.Config)
    ensures E.NextConfig(E.Staged(ctl, config)) == config
  {
  }

  lemma FrameKeepsNext(score: E.Detector, ctl: E.Ctl, f: seq<int>)
    ensures E.NextConfig(E.Observed(score, ctl, f).0) == E.NextConfig(ctl)
  {
  }

  lemma CheckAccounts(r: Rt, s: Settings)
    requires EnginesAccounted(r) && r.decided.None?
    ensures EnginesAccounted(Decided(r.(prepared := r.prepared + 1), s, r.prepared).0)
  {
    var d := Decided(r.(prepared := r.prepared + 1), s, r.prepared).0;
    forall e: nat ensures Uses(d, e) == if e < d.prepared then 1 else 0 {
      assert Uses(r, e) == if e < r.prepared then 1 else 0;
    }
  }

  lemma CommitAccounts(r: Rt, save: SaveOutcome)
    requires EnginesAccounted(r) && r.decided.Some?
    ensures EnginesAccounted(Committed(r, save).0)
  {
    var d := Committed(r, save).0;
    forall e: nat ensures Uses(d, e) == if e < d.prepared then 1 else 0 {
      assert Uses(r, e) == if e < r.prepared then 1 else 0;
    }
  }

  lemma RetryAccounts(r: Rt)
    requires EnginesAccounted(r)
    ensures EnginesAccounted(Retried(r))
  {
    forall e: nat ensures Uses(Retried(r), e) == if e < r.prepared then 1 else 0 {
      assert Uses(r, e) == if e < r.prepared then 1 else 0;
    }
  }

  /** No engine is closed twice, and none that is in use or about to be is closed. */
  lemma ClosedOnce(r: Rt, e: nat)
    requires EnginesAccounted(r)
    ensures r.closed[e] <= 1 && (e >= r.prepared ==> r.closed[e] == 0)
    ensures e == r.engine || (r.pending.Some? && e == r.pending.value.engine)
      || (r.decided.Some? && e == r.decided.value.engine)
      ==> r.closed[e] == 0
  {
    assert Uses(r, e) == if e < r.prepared then 1 else 0;
  }

  lemma CoverStep(score: E.Detector, r: Rt, e: Event)
    requires EnginesAccounted(r) && Covered(r)
    ensures Covered(Step(score, r, e))
  {
    match e
    case Offer(c, env) =>
      if r.decided.None? && c.Some? {
        OfferCovers(r, c.value, env);
      }
    case Commit(save) =>
      if r.decided.Some? {
        CommitCovers(r, save);
      }
    case Frame(f) => FrameKeepsNext(score, r.ctl, f);
    case _ => TurnCovers(score, r, e);
  }

  lemma CommitCovers(r: Rt, save: SaveOutcome)
    requires Covered(r) && r.decided.Some?
    ensures Covered(Committed(r, save).0)
  {
    StagedIsNext(r.ctl, r.decided.value.settings.endpointing);
  }

  lemma TurnCovers(score: E.Detector, r: Rt, e: Event)
    requires Covered(r) && (e.Retry? || e.StartTurn? || e.EndTurn? || e.Disconnect? || e.Idle?)
    ensures Covered(Step(score, r, e))
  {
  }

  lemma OfferCovers(r: Rt, s: Settings, env: Env)
    requires Covered(r) && r.decided.None?
    ensures Covered(Checked(r, Some(s), env).0)
  {
  }

  /** Every step keeps this, whatever the versions and whether or not becoming idle checks at once. */
  lemma StepKeeps(score: E.Detector, r: Rt, e: Event)
    requires Sound(r)
    ensures Sound(Step(score, r, e))
  {
    AccountsStep(score, r, e);
    CoverStep(score, r, e);
  }

  lemma {:induction false} AlwaysSound(score: E.Detector, r: Rt, events: seq<Event>)
    requires Sound(r)
    ensures Sound(Run(score, r, events))
  {
    if events != [] {
      AlwaysSound(score, r, events[..|events| - 1]);
      StepKeeps(score, Run(score, r, events[..|events| - 1]), events[|events| - 1]);
    }
  }

  lemma {:induction false} AlwaysAccounted(score: E.Detector, r: Rt, events: seq<Event>)
    requires EnginesAccounted(r)
    ensures EnginesAccounted(Run(score, r, events))
  {
    if events != [] {
      AlwaysAccounted(score, r, events[..|events| - 1]);
      AccountsStep(score, Run(score, r, events[..|events| - 1]), events[|events| - 1]);
    }
  }

  lemma AccountsStep(score: E.Detector, r: Rt, e: Event)
    requires EnginesAccounted(r)
    ensures EnginesAccounted(Step(score, r, e))
  {
    match e
    case Offer(c, env) =>
      if r.decided.None? && c.Some? {
        OfferAccounts(r, c.value, env);
      }
    case Commit(save) =>
      if r.decided.Some? {
        CommitAccounts(r, save);
      }
    case Frame(f) => AccountsElsewhere(r, r.active, E.Observed(score, r.ctl, f).0);
    case StartTurn(n) => AccountsElsewhere(r, true, E.Started(r.ctl, n));
    case Retry => RetryAccounts(r);
    case EndTurn => IdleAccounts(r, r.ctl);
    case Disconnect => IdleAccounts(r, E.Finished(r.ctl));
    case Idle => AccountsElsewhere(r, false, r.ctl);
  }

  lemma IdleAccounts(r: Rt, ctl: E.Ctl)
    requires EnginesAccounted(r)
    ensures EnginesAccounted(Retried(r.(active := false, ctl := ctl)))
  {
    AccountsElsewhere(r, false, ctl);
    RetryAccounts(r.(active := false, ctl := ctl));
  }

  lemma OfferAccounts(r: Rt, s: Settings, env: Env)
    requires EnginesAccounted(r) && r.decided.None?
    ensures EnginesAccounted(Checked(r, Some(s), env).0)
  {
    var g := r.(ring := Grown(r.ring, s.wake.preRollMs));
    forall e: nat ensures Uses(g, e) == if e < g.prepared then 1 else 0 {
      assert Uses(r, e) == if e < r.prepared then 1 else 0;
    }
    CheckAccounts(g, s);
  }

  lemma AccountsElsewhere(r: Rt, active: bool, ctl: E.Ctl)
    requires EnginesAccounted(r)
    ensures EnginesAccounted(r.(active := active, ctl := ctl))
  {
    var u := r.(active := active, ctl := ctl);
    forall e: nat ensures Uses(u, e) == if e < u.prepared then 1 else 0 {
      assert Uses(r, e) == if e < r.prepared then 1 else 0;
    }
  }

  /** No event becomes idle without checking for a pending revision; offered versions are positive. */
  ghost predicate Regular(events: seq<Event>) {
    forall k {:trigger events[k]} :: 0 <= k < |events| ==>
      !events[k].Idle? && (events[k].Offer? && events[k].candidate.Some? ==> events[k].candidate.value.version > 0)
  }

  lemma ForwardStep(score: E.Detector, r: Rt, e: Event)
    requires Forward(r) && !e.Idle? && (e.Offer? && e.candidate.Some? ==> e.candidate.value.version > 0)
    ensures Forward(Step(score, r, e)) && Step(score, r, e).settings.version >= r.settings.version
  {
    if e.Offer? && r.decided.None? && e.candidate.Some? {
      OfferForward(r, e.candidate.value, e.env);
    }
  }

  lemma OfferForward(r: Rt, s: Settings, env: Env)
    requires Forward(r) && r.decided.None? && s.version > 0
    ensures Forward(Checked(r, Some(s), env).0) && Checked(r, Some(s), env).0.settings == r.settings
  {
  }

  /**
   On every run on which becoming idle checks at once, the applied version never decreases, and a
   revision is held only while a turn is active or the revision is being applied.
   */
  lemma {:induction false} VersionNeverDecreases(score: E.Detector, r: Rt, events: seq<Event>)
    requires Forward(r) && Regular(events)
    ensures var d := Run(score, r, events); Forward(d) && d.settings.version >= r.settings.version
  {
    if events != [] {
      VersionNeverDecreases(score, r, events[..|events| - 1]);
      ForwardStep(score, Run(score, r, events[..|events| - 1]), events[|events| - 1]);
    }
  }

  // ---------------------------------------------------------------- persistence

  ghost predicate NoLateFailure(events: seq<Event>) {
    forall k {:trigger events[k]} :: 0 <= k < |events| && events[k].Commit? ==> !events[k].save.FailedAfterRename?
  }

  /** While no save fails after its rename, what is persisted is what is in force. */
  lemma {:induction false} StoreFollowsSettings(score: E.Detector, r: Rt, events: seq<Event>)
    requires r.stored == Some(r.settings) && NoLateFailure(events)
    ensures Run(score, r, events).stored == Some(Run(score, r, events).settings)
  {
    if events != [] {
      StoreFollowsSettings(score, r, events[..|events| - 1]);
      StoreStep(score, Run(score, r, events[..|events| - 1]), events[|events| - 1]);
    }
  }

  lemma StoreStep(score: E.Detector, r: Rt, e: Event)
    requires NoLateFailure([e])
    ensures var d := Step(score, r, e);
            (d.stored == r.stored && d.settings == r.settings) || d.stored == Some(d.settings)
  {
    assert [e][0] == e;
  }

  /** From bootstrap nothing is persisted until the first revision is applied, and then exactly that one. */
  lemma {:induction false} StoreFollowsBootstrap(score: E.Detector, r: Rt, events: seq<Event>)
    requires r.stored.None? && NoLateFailure(events)
    ensures var d := Run(score, r, events); d.stored == Some(d.settings) || (d.stored.None? && d.settings == r.settings)
  {
    if events != [] {
      StoreFollowsBootstrap(score, r, events[..|events| - 1]);
      StoreStep(score, Run(score, r, events[..|events| - 1]), events[|events| - 1]);
    }
  }

  /**
   A refused offer leaves settings and engine alone; the persisted one exactly when its save did not
   fail after the rename.
   */
  lemma RejectedLeavesStore(r: Rt, s: Settings, env: Env)
    requires ApplyOf(r, Some(s), env).1.Rejected?
    ensures var d := ApplyOf(r, Some(s), env).0;
            && d.settings == r.settings && d.engine == r.engine && d.pending == r.pending && d.ctl == r.ctl
            && (d.stored == r.stored <==>
                  !(ApplyOf(r, Some(s), env).1.code.PersistenceFailed? && env.save.FailedAfterRename?)
                      || r.stored == Some(s))
  {
  }

  /**
   The same for any commit, of a fresh offer or of a held revision, whatever happened since its idle
   check: a rejected one changes neither settings nor engine nor the turn's controller and drops
   what was held, and the store changes exactly when the save failed after its rename with other settings.
   */
  lemma RejectedCommit(r: Rt, save: SaveOutcome)
    requires r.decided.Some? && Committed(r, save).1.Rejected?
    ensures var d, p := Committed(r, save).0, r.decided.value;
            && d.settings == r.settings && d.engine == r.engine && d.ctl == r.ctl
            && d.pending == (if p.held then None else r.pending)
            && d.closed == r.closed + multiset{p.engine}
            && (d.stored == r.stored <==> !(save.FailedAfterRename? && r.stored != Some(p.settings)))
            && (save.FailedAfterRename? ==> d.stored == Some(p.settings))
  {
  }

  /** A commit whose save reached the store. */
  predicate Touches(r: Rt, e: Event) {
    e.Commit? && r.decided.Some? && !e.save.FailedBeforeRename?
  }

  /** Event i is the last of the first n that touched the store. */
  ghost predicate LastTouch(at: nat -> Rt, events: seq<Event>, i: nat, n: nat)
    requires i < n <= |events|
  {
    && Touches(at(i), events[i])
    && forall k: nat {:trigger at(k)} {:trigger events[k]} :: i < k < n ==> !Touches(at(k), events[k])
  }

  /** Settings and store change only when the store is touched, and how. */
  ghost predicate Stores(r: Rt, e: Event, d: Rt) {
    if Touches(r, e) then
      && d.stored == Some(r.decided.value.settings)
      && d.settings == (if e.save.Saved? then r.decided.value.settings else r.settings)
    else d.stored == r.stored && d.settings == r.settings
  }

  lemma StoresStep(score: E.Detector, r: Rt, e: Event)
    ensures Stores(r, e, Step(score, r, e))
  {
  }

  lemma TraceStores(score: E.Detector, r: Rt, events: seq<Event>, n: nat)
    requires n < |events|
    ensures var at := Trace(score, r, events); Stores(at(n), events[n], at(n + 1))
  {
    assert events[..n + 1][..n] == events[..n];
    StoresStep(score, Run(score, r, events[..n]), events[n]);
  }

  /** After event i, what is persisted and what is in force. */
  ghost predicate LeftBy(at: nat -> Rt, events: seq<Event>, i: nat, d: Rt)
    requires i < |events|
  {
    && at(i).decided.Some? && events[i].Commit?
    && d.stored == Some(at(i).decided.value.settings)
    && d.settings == (if events[i].save.Saved? then at(i).decided.value.settings else at(i).settings)
  }

  lemma {:induction false} StoreHistory(at: nat -> Rt, events: seq<Event>, n: nat) returns (i: nat)
    requires n <= |events| && forall k :: 0 <= k < n ==> Stores(at(k), events[k], at(k + 1))
    ensures if i < n then LastTouch(at, events, i, n) && LeftBy(at, events, i, at(n))
            else
              && (forall k :: 0 <= k < n ==> !Touches(at(k), events[k]))
              && at(n).stored == at(0).stored && at(n).settings == at(0).settings
  {
    i := n;
    if n > 0 {
      assert Stores(at(n - 1), events[n - 1], at(n));
      if Touches(at(n - 1), events[n - 1]) {
        i := n - 1;
      } else {
        i := StoreHistory(at, events, n - 1);
        if i >= n - 1 {
          i := n;
        }
      }
    }
  }

  /**
   Event i is the last commit that reached the store; it failed after its rename, with settings
   other than those in force.
   */
  ghost predicate FailedLast(at: nat -> Rt, events: seq<Event>, i: nat)
    requires i < |events|
  {
    && LastTouch(at, events, i, |events|)
    && events[i].save.FailedAfterRename? && at(i).decided.value.settings != at(i).settings
  }

  /**
   On every run that begins with what is in force persisted: they differ exactly when the last
   commit that reached the store failed after its rename with other settings.
   */
  lemma StoreDiffersIff(score: E.Detector, r: Rt, events: seq<Event>, at: nat -> Rt)
    requires r.stored == Some(r.settings) && at == Trace(score, r, events)
    ensures var d := Run(score, r, events);
            d.stored != Some(d.settings) <==> exists i :: 0 <= i < |events| && FailedLast(at, events, i)
  {
    var n := |events|;
    assert events[..n] == events && at(n) == Run(score, r, events) && at(0) == r;
    forall k | 0 <= k < n ensures Stores(at(k), events[k], at(k + 1)) {
      TraceStores(score, r, events, k);
    }
    var i := StoreHistory(at, events, n);
    if i < n && at(n).stored != Some(at(n).settings) {
      assert FailedLast(at, events, i);
    }
    forall j | 0 <= j < n && FailedLast(at, events, j) ensures at(n).stored != Some(at(n).settings) {
      assert j == i;
    }
  }

  /** Rejected, and yet the next start of the device will use it. */
  lemma RejectedButPersisted(r: Rt, s: Settings)
    requires r.pending.None? && !r.active && s.version > r.settings.version && Duration(s.wake.preRollMs) >= 0
    ensures var (d, result) := ApplyOf(r, Some(s), Env(true, true, FailedAfterRename));
            result == Rejected(PersistenceFailed) && d.stored == Some(s) && d.settings == r.settings != s
  {
  }

  // ---------------------------------------------------------------- turns

  /** The states of a run, the n-th after n events. */
  function Trace(score: E.Detector, r: Rt, events: seq<Event>): nat -> Rt {
    (n: nat) => if n <= |events| then Run(score, r, events[..n]) else r
  }

  /**
   Event i is an idle check that found no turn and has not been committed; event j started the turn
   that is active.
   */
  ghost predicate StartedAfterCheck(at: nat -> Rt, events: seq<Event>, i: nat, j: nat)
    requires i < j < |events|
  {
    && at(i).decided.None? && (forall n :: i < n <= |events| ==> at(n).decided.Some?) && !at(i + 1).active
    && events[j].StartTurn? && !at(j).active && (forall n :: j < n <= |events| ==> at(n).active)
  }

  /** A check decides only when it finds no turn; a turn starts by its event, which decides nothing. */
  ghost predicate Decides(r: Rt, e: Event, d: Rt) {
    && (r.decided.None? && d.decided.Some? ==> !d.active)
    && (!r.active && d.active ==> e.StartTurn?)
  }

  lemma DecideStep(score: E.Detector, r: Rt, e: Event)
    ensures Decides(r, e, Step(score, r, e))
  {
  }

  lemma TraceDecides(score: E.Detector, r: Rt, events: seq<Event>, n: nat)
    requires n < |events|
    ensures var at := Trace(score, r, events); Decides(at(n), events[n], at(n + 1))
  {
    assert events[..n + 1][..n] == events[..n];
    DecideStep(score, Run(score, r, events[..n]), events[n]);
  }

  /** Where a condition that fails at 0 and holds at n began to hold for good. */
  lemma {:induction false} LastRise(p: nat -> bool, n: nat) returns (i: nat)
    requires !p(0) && p(n)
    ensures i < n && !p(i) && forall m :: i < m <= n ==> p(m)
  {
    if p(n - 1) {
      i := LastRise(p, n - 1);
    } else {
      i := n - 1;
    }
  }

  lemma CheckThenStart(at: nat -> Rt, events: seq<Event>) returns (i: nat, j: nat)
    requires forall n :: 0 <= n < |events| ==> Decides(at(n), events[n], at(n + 1))
    requires at(0).decided.None? && !at(0).active && at(|events|).decided.Some? && at(|events|).active
    ensures i < j < |events| && StartedAfterCheck(at, events, i, j)
  {
    var decided, active := (n: nat) => at(n).decided.Some?, (n: nat) => at(n).active;
    i := LastRise(decided, |events|);
    j := LastRise(active, |events|);
    assert forall n: nat :: decided(n) == at(n).decided.Some? && active(n) == at(n).active;
    assert Decides(at(i), events[i], at(i + 1)) && Decides(at(j), events[j], at(j + 1));
  }

  /**
   During a turn, settings and engine change with a successful commit and with nothing else; only a
   commit touches the store.
   */
  lemma ChangesOnlyByCommit(score: E.Detector, r: Rt, e: Event)
    requires EnginesAccounted(r) && r.active && Step(score, r, e).active
    ensures var d := Step(score, r, e);
            && ((d.settings != r.settings || d.engine != r.engine) <==> r.decided.Some? && e == Commit(Saved))
            && d.ctl.turn == r.ctl.turn && (d.stored != r.stored ==> r.decided.Some? && e.Commit?)
  {
    if r.decided.Some? {
      assert Uses(r, r.decided.value.engine) <= 1;
    }
  }

  /**
   On every run from an idle beginning, whatever the next event is: settings or engine change under
   an active turn if and only if that event is a successful commit whose idle check came before the turn
   started. The turn's own endpointing never changes.
   */
  lemma ChangedDuringTurnIff(score: E.Detector, r: Rt, events: seq<Event>, e: Event)
    requires EnginesAccounted(r) && r.decided.None? && !r.active
    requires Run(score, r, events).active && Step(score, Run(score, r, events), e).active
    ensures var w := Run(score, r, events);
            var d := Step(score, w, e);
            && ((d.settings != w.settings || d.engine != w.engine) <==>
                  e == Commit(Saved) && exists i, j ::
                    0 <= i < j < |events| && StartedAfterCheck(Trace(score, r, events), events, i, j))
            && d.ctl.turn == w.ctl.turn
  {
    var w := Run(score, r, events);
    AlwaysAccounted(score, r, events);
    ChangesOnlyByCommit(score, w, e);
    var at := Trace(score, r, events);
    assert events[..|events|] == events && at(|events|) == w && at(0) == r;
    if w.decided.Some? {
      forall n | 0 <= n < |events| ensures Decides(at(n), events[n], at(n + 1)) {
        TraceDecides(score, r, events, n);
      }
      var i, j := CheckThenStart(at, events);
    }
  }

  lemma RunOne(score: E.Detector, r: Rt, events: seq<Event>, e: Event)
    ensures Run(score, r, events + [e]) == Step(score, Run(score, r, events), e)
  {
    assert (events + [e])[..|events|] == events;
  }

  /** A turn that starts between the check and the commit has settings and engine replaced under it. */
  lemma TurnStartedAfterCheck(score: E.Detector, r: Rt, s: Settings, preRoll: nat)
    requires EnginesAccounted(r) && r.pending.None? && r.decided.None? && !r.active && !r.ctl.InTurn()
    requires s.version > r.settings.version && Duration(s.wake.preRollMs) >= 0
    ensures var events := [Offer(Some(s), READY), StartTurn(preRoll)];
            var w, d := Run(score, r, events), Run(score, r, events + [Commit(Saved)]);
            w.active && d.active && w.settings == r.settings && d.settings == s && d.engine != w.engine == r.engine
  {
    var offer := Offer(Some(s), READY);
    assert Run(score, r, []) == r;
    RunTwo(score, r, [], offer, StartTurn(preRoll));
    assert [] + [offer] + [StartTurn(preRoll)] == [offer, StartTurn(preRoll)];
    RunOne(score, r, [offer, StartTurn(preRoll)], Commit(Saved));
    CheckedThenStarted(score, r, s, preRoll);
    CommittedUnder(score, Step(score, Step(score, r, offer), StartTurn(preRoll)));
    assert Uses(r, r.engine) == if r.engine < r.prepared then 1 else 0;
  }

  lemma CheckedThenStarted(score: E.Detector, r: Rt, s: Settings, preRoll: nat)
    requires r.pending.None? && r.decided.None? && !r.active && !r.ctl.InTurn()
    requires s.version > r.settings.version && Duration(s.wake.preRollMs) >= 0
    ensures var w := Step(score, Step(score, r, Offer(Some(s), READY)), StartTurn(preRoll));
            && w.active && w.settings == r.settings && w.engine == r.engine
            && w.decided == Some(Decision(s, r.prepared, false))
  {
  }

  lemma CommittedUnder(score: E.Detector, w: Rt)
    requires w.active && w.decided.Some?
    ensures var d := Step(score, w, Commit(Saved));
            d.active && d.settings == w.decided.value.settings && d.engine == w.decided.value.engine
  {
  }

  // ---------------------------------------------------------------- when becoming idle does not check at once

  lemma HeldWhileActive(score: E.Detector, r: Rt, held: Settings)
    requires r.active && r.decided.None? && r.pending.None? && r.settings.version < held.version
      && Duration(held.wake.preRollMs) >= 0
    ensures var w := Step(score, Step(score, r, Offer(Some(held), READY)), Idle);
            !w.active && w.decided.None? && w.pending == Some(Pending(held, r.prepared)) && w.settings == r.settings
  {
  }

  lemma NewerApplied(score: E.Detector, r: Rt, newer: Settings)
    requires !r.active && r.decided.None? && r.pending.Some? && Newest(r).version < newer.version
      && Duration(newer.wake.preRollMs) >= 0
    ensures var w := Step(score, Step(score, r, Offer(Some(newer), READY)), Commit(Saved));
            !w.active && w.decided.None? && w.pending == r.pending && w.settings == newer
  {
  }

  lemma HeldApplied(score: E.Detector, r: Rt)
    requires !r.active && r.decided.None? && r.pending.Some?
    ensures var w := Step(score, Step(score, r, Retry), Commit(Saved));
            w.settings == r.pending.value.settings && w.stored == Some(r.pending.value.settings)
  {
  }

  /**
   A revision held by a turn, a newer one applied once it is idle, and then the retry of the held
   one: the older one wins.
   */
  lemma OlderPendingOverwritesNewer(score: E.Detector, r: Rt, held: Settings, newer: Settings)
    requires r.active && r.decided.None? && r.pending.None? && r.settings.version < held.version < newer.version
    requires Duration(held.wake.preRollMs) >= 0 && Duration(newer.wake.preRollMs) >= 0
    ensures var early := [Offer(Some(held), READY), Idle];
            var d := Run(score, r, early + [Offer(Some(newer), READY)] + [Commit(Saved)]);
            var e := Run(score, r, early + [Offer(Some(newer), READY)] + [Commit(Saved)] + [Retry] + [Commit(Saved)]);
            d.settings == newer && e.settings == held && e.stored == Some(held)
  {
    var a, b := Offer(Some(held), READY), Offer(Some(newer), READY);
    var w := Step(score, Step(score, r, a), Idle);
    RunTwo(score, r, [], a, Idle);
    assert [] + [a] + [Idle] == [a, Idle];
    HeldWhileActive(score, r, held);
    RunTwo(score, r, [a, Idle], b, Commit(Saved));
    NewerApplied(score, w, newer);
    RunTwo(score, r, [a, Idle] + [b] + [Commit(Saved)], Retry, Commit(Saved));
    HeldApplied(score, Step(score, Step(score, w, b), Commit(Saved)));
  }

  lemma RunTwo(score: E.Detector, r: Rt, events: seq<Event>, a: Event, b: Event)
    ensures Run(score, r, events + [a] + [b]) == Step(score, Step(score, Run(score, r, events), a), b)
  {
    RunOne(score, r, events, a);
    RunOne(score, r, events + [a], b);
  }

  /** Applying a pending revision on its own keeps the version from decreasing exactly when it is not the older one. */
  lemma PendingRegressesWhenOlder(r: Rt, save: SaveOutcome)
    ensures ApplyPendingOf(r, save).settings.version >= r.settings.version <==>
      !(r.pending.Some? && !r.active && save.Saved? && r.pending.value.settings.version < r.settings.version)
  {
  }
}

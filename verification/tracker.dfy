/**
 The status tracker of one agent run: a reducer over events, its public snapshot, and its
 reconstruction from a stored snapshot.
 */
module Tracker {
  import opened Prelude
  import opened AgentModel

  /** The tracker's fields as one value. */
  datatype State = State(run: RunId, provider: Provider, base: BaseState, revision: u64,
                         completion: u64, seen: u64, lastSequence: Option<u64>, lastAt: Option<u64>,
                         lastKind: Option<Kind>, authority: Authority, health: Health,
                         capability: Capability, suppressed: bool, blocker: Option<Blocker>)

  function New(run: RunId, provider: Provider, capability: Capability): State {
    State(run, provider, BaseState.Unknown, 0, 0, 0, Option.None, Option.None, Option.None,
          Authority.None, Health.Unknown, capability, false, Option.None)
  }

  function EffectiveState(t: State): AgentState {
    if t.blocker.Some? && t.base != BaseState.Exited then AgentState.NeedsInput
    else
      match t.base
      case Unknown => AgentState.Unknown
      case Working => AgentState.Working
      case NeedsInput => AgentState.NeedsInput
      case Idle => if t.completion > t.seen then AgentState.Done else AgentState.Ready
      case Exited => AgentState.Exited
  }

  function SnapshotOf(t: State): Snapshot {
    Snapshot(t.run, t.provider, EffectiveState(t), t.revision, t.completion, t.seen,
             t.lastSequence, t.lastAt, t.health, t.capability, t.suppressed)
  }

  function BaseOf(state: AgentState): BaseState {
    match state
    case Unknown => BaseState.Unknown
    case Working => BaseState.Working
    case NeedsInput => BaseState.NeedsInput
    case Done => BaseState.Idle
    case Ready => BaseState.Idle
    case Exited => BaseState.Exited
  }

  function FromSnapshot(s: Snapshot): State {
    State(s.run, s.provider, BaseOf(s.state), s.revision, s.completion, s.seen, s.lastSequence,
          s.lastAt, Option.None, Authority.None, s.health, s.capability, s.suppressed, Option.None)
  }

  predicate ValidSource(source: Source, kind: Kind) {
    match kind
    case Exited(_) => source.ProcessSupervisor?
    case HealthChanged(_) => source.ProviderIntegration? || source.IntegrationSupervisor?
    case StateUnknown => source.ProviderIntegration? || source.ProcessSupervisor?
    case _ => source.ProviderIntegration?
  }

  /** Why an event is not applied, if it is not. */
  function Refusal(t: State, e: Event): Option<Ignored> {
    if e.run != t.run then Some(StaleRun)
    else if e.provider != t.provider then Some(ProviderMismatch)
    else if t.lastSequence.Some? && e.sequence <= t.lastSequence.value then Some(StaleSequence)
    else if !ValidSource(e.source, e.kind) then Some(InvalidSource)
    else if e.kind.NeedsInput? && !t.capability.AcceptsProviderEvents() then Some(CapabilityMismatch)
    else Option.None
  }

  function WithBase(t: State, base: BaseState): State {
    t.(base := base, blocker := Option.None)
  }

  function ApplyKind(t: State, source: Source, kind: Kind): State {
    var t := if !t.provider.OpenCode? && source.ProviderIntegration? && !kind.HealthChanged? && !t.health.Healthy?
             then t.(health := Healthy(Option.None)) else t;
    match kind
    case Ready => WithBase(t.(suppressed := false), BaseState.Idle)
    case Working => WithBase(t.(suppressed := false), BaseState.Working)
    case NeedsInput => WithBase(t.(suppressed := false), BaseState.NeedsInput)
    case TurnCompleted =>
      if t.suppressed then t else WithBase(t, BaseState.Idle).(completion := WrappingSucc(t.completion))
    case StateUnknown =>
      WithBase(if source.ProcessSupervisor? then t.(suppressed := true) else t, BaseState.Unknown)
    case Exited(_) => WithBase(t.(suppressed := false), BaseState.Exited)
    case HealthChanged(health) =>
      var t := t.(health := health);
      if !health.Healthy? && t.base != BaseState.Exited then t.(base := BaseState.Unknown) else t
  }

  function AuthorityOf(source: Source): Authority {
    match source
    case ProviderIntegration => Authority.ProviderIntegration
    case IntegrationSupervisor => Authority.IntegrationSupervisor
    case ProcessSupervisor => Authority.ProcessSupervisor
  }

  function Accept(t: State, e: Event): State {
    var at := if t.lastAt.Some? then Max(t.lastAt.value, e.observedAt) else e.observedAt;
    var t := t.(lastSequence := Some(e.sequence), lastAt := Some(at), lastKind := Some(e.kind),
                authority := AuthorityOf(e.source));
    var t := ApplyKind(t, e.source, e.kind);
    t.(revision := WrappingSucc(t.revision))
  }

  function ApplyEvent(t: State, e: Event): (State, Disposition) {
    match Refusal(t, e)
    case Some(reason) => (t, Rejected(reason))
    case None => (Accept(t, e), Applied(SnapshotOf(Accept(t, e))))
  }

  function MarkSeen(t: State): State {
    if t.seen < t.completion then t.(seen := t.completion, revision := WrappingSucc(t.revision)) else t
  }

  /** The stateful tracker; its fields are updated in place. */
  class AgentStatusTracker {
    var run: RunId
    var provider: Provider
    var base: BaseState
    var revision: u64
    var completion: u64
    var seen: u64
    var lastSequence: Option<u64>
    var lastAt: Option<u64>
    var lastKind: Option<Kind>
    var authority: Authority
    var health: Health
    var capability: Capability
    var suppressed: bool
    var blocker: Option<Blocker>

    function Value(): State
      reads this
    {
      State(run, provider, base, revision, completion, seen, lastSequence, lastAt, lastKind,
            authority, health, capability, suppressed, blocker)
    }

    constructor Of(t: State)
      ensures Value() == t
    {
      run, provider, base, revision, completion, seen :=
        t.run, t.provider, t.base, t.revision, t.completion, t.seen;
      lastSequence, lastAt, lastKind, authority := t.lastSequence, t.lastAt, t.lastKind, t.authority;
      health, capability, suppressed, blocker := t.health, t.capability, t.suppressed, t.blocker;
    }

    method Assign(t: State)
      modifies this
      ensures Value() == t
    {
      run, provider, base, revision, completion, seen :=
        t.run, t.provider, t.base, t.revision, t.completion, t.seen;
      lastSequence, lastAt, lastKind, authority := t.lastSequence, t.lastAt, t.lastKind, t.authority;
      health, capability, suppressed, blocker := t.health, t.capability, t.suppressed, t.blocker;
    }

    method SetBaseState(state: BaseState)
      modifies this
      ensures Value() == WithBase(old(Value()), state)
    {
      base := state;
      blocker := Option.None;
    }

    method ApplyEventKind(source: Source, kind: Kind)
      modifies this
      ensures Value() == ApplyKind(old(Value()), source, kind)
    {
      if provider != OpenCode && source.ProviderIntegration? && !kind.HealthChanged? && !health.Healthy? {
        health := Healthy(Option.None);
      }
      match kind {
        case Ready =>
          suppressed := false;
          SetBaseState(BaseState.Idle);
        case Working =>
          suppressed := false;
          SetBaseState(BaseState.Working);
        case NeedsInput =>
          suppressed := false;
          SetBaseState(BaseState.NeedsInput);
        case TurnCompleted =>
          if !suppressed {
            SetBaseState(BaseState.Idle);
            completion := WrappingSucc(completion);
          }
        case StateUnknown =>
          if source.ProcessSupervisor? {
            suppressed := true;
          }
          SetBaseState(BaseState.Unknown);
        case Exited(_) =>
          suppressed := false;
          SetBaseState(BaseState.Exited);
        case HealthChanged(changed) =>
          health := changed;
          if !changed.Healthy? && base != BaseState.Exited {
            base := BaseState.Unknown;
          }
      }
    }

    method Apply(e: Event) returns (d: Disposition)
      modifies this
      ensures (Value(), d) == ApplyEvent(old(Value()), e)
    {
      var refusal := Refusal(Value(), e);
      if refusal.Some? {
        return Rejected(refusal.value);
      }
      lastSequence := Some(e.sequence);
      lastAt := Some(if lastAt.Some? then Max(lastAt.value, e.observedAt) else e.observedAt);
      lastKind := Some(e.kind);
      authority := AuthorityOf(e.source);
      ApplyEventKind(e.source, e.kind);
      revision := WrappingSucc(revision);
      d := Applied(SnapshotOf(Value()));
    }

    method See() returns (s: Snapshot)
      modifies this
      ensures Value() == MarkSeen(old(Value())) && s == SnapshotOf(Value())
      ensures s.state != AgentState.Done
    {
      if seen < completion {
        seen := completion;
        revision := WrappingSucc(revision);
      }
      s := SnapshotOf(Value());
    }

    /** Starts another run in the same pane: everything but the revision counter is as new. */
    method BeginRun(nextRun: RunId, nextProvider: Provider, nextCapability: Capability) returns (s: Snapshot)
      modifies this
      ensures Value() == New(nextRun, nextProvider, nextCapability).(revision := WrappingSucc(old(revision)))
      ensures s == SnapshotOf(Value())
    {
      Assign(New(nextRun, nextProvider, nextCapability).(revision := WrappingSucc(revision)));
      s := SnapshotOf(Value());
    }
  }

  // ---- rehydration

  /** Exactly the snapshots a tracker can show survive being stored and rehydrated. */
  lemma SnapshotSurvivesExactly(s: Snapshot)
    ensures SnapshotOf(FromSnapshot(s)) == s <==>
            (s.state == AgentState.Done ==> s.completion > s.seen)
              && (s.state == AgentState.Ready ==> s.completion <= s.seen)
    ensures (exists t :: SnapshotOf(t) == s) <==> SnapshotOf(FromSnapshot(s)) == s
  {
    if exists t :: SnapshotOf(t) == s {
      var t :| SnapshotOf(t) == s;
    }
  }

  /** The answers a tracker gives to a sequence of events. */
  function Answers(t: State, events: seq<Event>): seq<Disposition>
    decreases |events|
  {
    if events == [] then []
    else [ApplyEvent(t, events[0]).1] + Answers(ApplyEvent(t, events[0]).0, events[1..])
  }

  /** Equal in everything that any later answer depends on. */
  predicate Alike(t: State, u: State) {
    && t.run == u.run && t.provider == u.provider && t.base == u.base && t.revision == u.revision
    && t.completion == u.completion && t.seen == u.seen && t.lastSequence == u.lastSequence
    && t.lastAt == u.lastAt && t.health == u.health && t.capability == u.capability
    && t.suppressed == u.suppressed
    && (t.base == BaseState.Exited || t.blocker == u.blocker)
  }

  lemma AlikeKind(t: State, u: State, source: Source, kind: Kind)
    requires Alike(t, u)
    ensures Alike(ApplyKind(t, source, kind), ApplyKind(u, source, kind))
  {
    match kind {
      case Ready =>
      case Working =>
      case NeedsInput =>
      case TurnCompleted =>
      case StateUnknown =>
      case Exited(_) =>
      case HealthChanged(_) =>
    }
  }

  lemma AlikeAccept(t: State, u: State, e: Event)
    requires Alike(t, u)
    ensures Alike(Accept(t, e), Accept(u, e))
  {
    var at := if t.lastAt.Some? then Max(t.lastAt.value, e.observedAt) else e.observedAt;
    AlikeKind(t.(lastSequence := Some(e.sequence), lastAt := Some(at), lastKind := Some(e.kind),
                 authority := AuthorityOf(e.source)),
              u.(lastSequence := Some(e.sequence), lastAt := Some(at), lastKind := Some(e.kind),
                 authority := AuthorityOf(e.source)),
              e.source, e.kind);
  }

  lemma AlikeStep(t: State, u: State, e: Event)
    requires Alike(t, u)
    ensures ApplyEvent(t, e).1 == ApplyEvent(u, e).1
    ensures Alike(ApplyEvent(t, e).0, ApplyEvent(u, e).0)
  {
    if Refusal(t, e) == Option.None {
      AlikeAccept(t, u, e);
    }
  }

  lemma {:induction false} AlikeAnswers(t: State, u: State, events: seq<Event>)
    requires Alike(t, u)
    ensures Answers(t, events) == Answers(u, events)
    decreases |events|
  {
    if events != [] {
      AlikeStep(t, u, events[0]);
      AlikeAnswers(ApplyEvent(t, events[0]).0, ApplyEvent(u, events[0]).0, events[1..]);
    }
  }

  /** No blocker overlay is in effect. */
  predicate Settled(t: State) {
    t.blocker == Option.None || t.base == BaseState.Exited
  }

  lemma RehydrationIsAlike(t: State)
    requires Settled(t)
    ensures Alike(t, FromSnapshot(SnapshotOf(t)))
  {
  }

  /** The health report that tells a blocked tracker from its rehydration. */
  function TellTale(t: State): Event {
    Event(0, 0, t.run, Option.None, t.provider, U64_MAX, 0, Source.IntegrationSupervisor, HealthChanged(Stale))
  }

  /**
   Storing a tracker as a snapshot and rehydrating it can never be noticed in any later
   answer, exactly when no blocker overlay is in effect (or no further event can apply).
   */
  lemma RehydrationInvisibleExactlyWithoutOverlay(t: State)
    ensures (forall events :: Answers(FromSnapshot(SnapshotOf(t)), events) == Answers(t, events))
       <==> Settled(t) || t.lastSequence == Some(U64_MAX)
  {
    var u := FromSnapshot(SnapshotOf(t));
    if Settled(t) {
      RehydrationIsAlike(t);
      forall events ensures Answers(u, events) == Answers(t, events) {
        AlikeAnswers(t, u, events);
      }
    } else if t.lastSequence == Some(U64_MAX) {
      forall events ensures Answers(u, events) == Answers(t, events) {
        ExhaustedAnswers(t, u, events);
      }
    } else {
      BlockerIsNoticed(t);
    }
  }

  lemma BlockerIsNoticed(t: State)
    requires !Settled(t) && t.lastSequence != Some(U64_MAX)
    ensures exists events :: Answers(FromSnapshot(SnapshotOf(t)), events) != Answers(t, events)
  {
    var u := FromSnapshot(SnapshotOf(t));
    var events := [TellTale(t)];
    assert ApplyEvent(t, events[0]).1 == Applied(SnapshotOf(Accept(t, TellTale(t))));
    assert ApplyEvent(u, events[0]).1 == Applied(SnapshotOf(Accept(u, TellTale(t))));
    assert EffectiveState(Accept(t, TellTale(t))) == AgentState.NeedsInput;
    assert EffectiveState(Accept(u, TellTale(t))) == AgentState.Unknown;
    assert Answers(t, events)[0] == ApplyEvent(t, events[0]).1;
    assert Answers(u, events)[0] == ApplyEvent(u, events[0]).1;
    assert Answers(FromSnapshot(SnapshotOf(t)), events) != Answers(t, events);
  }

  /** After the last possible sequence number, every event is refused for the same reason. */
  lemma {:induction false} ExhaustedAnswers(t: State, u: State, events: seq<Event>)
    requires t.lastSequence == u.lastSequence == Some(U64_MAX)
    requires t.run == u.run && t.provider == u.provider
    ensures Answers(t, events) == Answers(u, events)
    decreases |events|
  {
    if events != [] {
      ExhaustedAnswers(t, u, events[1..]);
    }
  }
}

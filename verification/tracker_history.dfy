/**
 What a tracker shows, told from the whole history of the events it was given and the moments it was
 looked at, without the reducer: the last event that says something decides the state.
 */
module TrackerHistory {
  import opened Prelude
  import opened AgentModel
  import opened Tracker

  datatype Move = Happens(event: Event) | IsSeen

  function After(start: State, moves: seq<Move>): State {
    if moves == [] then start
    else
      var t := After(start, moves[..|moves| - 1]);
      match moves[|moves| - 1]
      case Happens(e) => ApplyEvent(t, e).0
      case IsSeen => MarkSeen(t)
  }

  /** The events that were not refused. */
  function Accepted(start: State, moves: seq<Move>): seq<Event> {
    if moves == [] then []
    else
      var before, last := moves[..|moves| - 1], moves[|moves| - 1];
      Accepted(start, before) +
        if last.Happens? && ApplyEvent(After(start, before), last.event).1.Applied? then [last.event] else []
  }

  // ---- what a list of accepted events says

  /** The run is alive or gone for certain. */
  predicate IsCertain(kind: Kind) {
    kind.Ready? || kind.Working? || kind.NeedsInput? || kind.Exited?
  }

  /** The process supervisor has lost track of the run, and nothing certain has come since. */
  ghost predicate LostTrack(events: seq<Event>) {
    exists i :: IsLoss(events, i) && forall j :: i < j < |events| ==> !IsCertain(events[j].kind)
  }

  predicate IsLoss(events: seq<Event>, i: int) {
    0 <= i < |events| && events[i].kind.StateUnknown? && events[i].source.ProcessSupervisor?
  }

  /** A completed turn counts unless the supervisor had lost track of the run. */
  ghost predicate Counts(events: seq<Event>, i: nat) {
    i < |events| && events[i].kind.TurnCompleted? && !LostTrack(events[..i])
  }

  ghost function Completed(events: seq<Event>): nat {
    if events == [] then 0
    else Completed(events[..|events| - 1]) + (if Counts(events, |events| - 1) then 1 else 0)
  }

  ghost predicate Says(events: seq<Event>, i: nat) {
    i < |events| && (IsCertain(events[i].kind) || events[i].kind.StateUnknown? || Counts(events, i))
  }

  ghost predicate LastWord(events: seq<Event>, i: nat) {
    Says(events, i) && forall j: nat :: i < j < |events| ==> !Says(events, j)
  }

  /** The integration was reported unhealthy from event `i` on. */
  ghost predicate FailsFrom(events: seq<Event>, i: nat) {
    exists j :: i <= j < |events| && IsFailure(events[j])
  }

  predicate IsFailure(e: Event) {
    e.kind.HealthChanged? && !e.kind.health.Healthy?
  }

  /** The state that a last word and what came after it show. */
  predicate Shows(word: Kind, failed: bool, unseen: bool, state: AgentState) {
    if word.Exited? then state == AgentState.Exited
    else if failed || word.StateUnknown? then state == AgentState.Unknown
    else if word.Working? then state == AgentState.Working
    else if word.NeedsInput? then state == AgentState.NeedsInput
    else state == if unseen then AgentState.Done else AgentState.Ready
  }

  ghost predicate LastHealth(events: seq<Event>, i: int) {
    && 0 <= i < |events| && events[i].kind.HealthChanged?
    && forall j :: i < j < |events| ==> !events[j].kind.HealthChanged?
  }

  /** A hook of the provider itself came from event `i` on. */
  ghost predicate HookFrom(events: seq<Event>, i: nat) {
    exists j :: i <= j < |events| && IsHook(events[j])
  }

  predicate IsHook(e: Event) {
    e.source.ProviderIntegration? && !e.kind.HealthChanged?
  }

  /** The last report holds; a hook of a provider other than OpenCode is itself a sign of health. */
  ghost predicate HealthTold(provider: Provider, events: seq<Event>, health: Health) {
    && (forall i :: LastHealth(events, i) ==>
          health == if !provider.OpenCode? && !events[i].kind.health.Healthy? && HookFrom(events, i + 1)
                    then Healthy(Option.None) else events[i].kind.health)
    && ((forall i :: 0 <= i < |events| ==> !events[i].kind.HealthChanged?) ==>
          health == if !provider.OpenCode? && HookFrom(events, 0) then Healthy(Option.None) else Health.Unknown)
  }

  ghost predicate StateTold(events: seq<Event>, unseen: bool, state: AgentState) {
    && (forall i: nat :: LastWord(events, i) ==> Shows(events[i].kind, FailsFrom(events, i + 1), unseen, state))
    && ((forall i: nat :: !Says(events, i)) ==> state == AgentState.Unknown)
  }

  function LatestAt(events: seq<Event>): Option<u64> {
    if events == [] then Option.None
    else
      var before, last := LatestAt(events[..|events| - 1]), events[|events| - 1];
      Some(if before.Some? && before.value > last.observedAt then before.value else last.observedAt)
  }

  /** The snapshot is what the events say. */
  ghost predicate Told(s: Snapshot, events: seq<Event>) {
    && s.lastSequence == (if events == [] then Option.None else Some(events[|events| - 1].sequence))
    && s.lastAt == LatestAt(events)
    && s.completion == Completed(events) % TWO_64
    && (s.suppressed <==> LostTrack(events))
    && StateTold(events, s.completion > s.seen, s.state)
    && HealthTold(s.provider, events, s.health)
  }

  // ---- one more event

  lemma PrefixSays(events: seq<Event>, e: Event)
    ensures forall i: nat :: i < |events| ==> (Says(events + [e], i) <==> Says(events, i))
    ensures Counts(events + [e], |events|) <==> e.kind.TurnCompleted? && !LostTrack(events)
    ensures Completed(events + [e]) == Completed(events) + (if Counts(events + [e], |events|) then 1 else 0)
  {
    hide LostTrack;
    var more := events + [e];
    assert more[..|events|] == events;
    forall i: nat | i < |events| ensures Says(more, i) <==> Says(events, i) {
      assert more[..i] == events[..i] && more[i] == events[i];
    }
  }

  lemma LossOneMore(events: seq<Event>, e: Event)
    ensures LostTrack(events + [e]) <==>
              !IsCertain(e.kind) && (LostTrack(events) || (e.kind.StateUnknown? && e.source.ProcessSupervisor?))
  {
    var more, n := events + [e], |events|;
    if LostTrack(more) {
      var i :| IsLoss(more, i) && forall j :: i < j < |more| ==> !IsCertain(more[j].kind);
      assert i < n ==> !IsCertain(more[n].kind);
      if i < n {
        assert IsLoss(events, i);
        forall j | i < j < n ensures !IsCertain(events[j].kind) {
          assert more[j] == events[j];
        }
      }
    }
    if !IsCertain(e.kind) && LostTrack(events) {
      var i :| IsLoss(events, i) && forall j :: i < j < n ==> !IsCertain(events[j].kind);
      assert IsLoss(more, i);
    }
    if e.kind.StateUnknown? && e.source.ProcessSupervisor? {
      assert IsLoss(more, n);
    }
  }

  lemma FailureOneMore(events: seq<Event>, e: Event, i: nat)
    requires i <= |events|
    ensures FailsFrom(events + [e], i) <==> FailsFrom(events, i) || IsFailure(e)
    ensures HookFrom(events + [e], i) <==> HookFrom(events, i) || IsHook(e)
  {
    var more := events + [e];
    assert more[|events|] == e && forall j :: 0 <= j < |events| ==> more[j] == events[j];
    if FailsFrom(events, i) {
      var j :| i <= j < |events| && IsFailure(events[j]);
      assert IsFailure(more[j]);
    }
    if HookFrom(events, i) {
      var j :| i <= j < |events| && IsHook(events[j]);
      assert IsHook(more[j]);
    }
  }

  lemma StateOneMore(events: seq<Event>, e: Event, unseen: bool, state: AgentState, unseen': bool, state': AgentState)
    requires StateTold(events, unseen, state)
    requires var says := Says(events + [e], |events|);
             if says then Shows(e.kind, false, unseen', state')
             else if IsFailure(e) then state' == if state.Exited? then state else AgentState.Unknown
             else state' == state && unseen' == unseen
    ensures StateTold(events + [e], unseen', state')
  {
    hide Says;
    var more, n := events + [e], |events|;
    PrefixSays(events, e);
    forall i: nat | LastWord(more, i)
      ensures i < |more| && Shows(more[i].kind, FailsFrom(more, i + 1), unseen', state')
    {
      SaysWithin(more, i);
      if i < n {
        forall j: nat | i < j < n ensures !Says(events, j) {
          assert !Says(more, j);
        }
        assert LastWord(events, i);
        FailureOneMore(events, e, i + 1);
        assert !Says(more, n);
        assert more[i] == events[i];
      } else {
        NothingAfterLast(more);
      }
    }
    if forall i: nat :: !Says(more, i) {
      assert !Says(more, n);
      forall i: nat ensures !Says(events, i) {
        if i < n {
          assert !Says(more, i);
        } else {
          NothingBeyond(events, i);
        }
      }
    }
  }

  lemma NothingBeyond(events: seq<Event>, i: nat)
    requires i >= |events|
    ensures !Says(events, i)
  {
  }

  lemma SaysWithin(events: seq<Event>, i: nat)
    requires Says(events, i)
    ensures i < |events|
  {
  }

  /** The health after one more event. */
  predicate HealthNext(provider: Provider, e: Event, health: Health, health': Health) {
    health' == if e.kind.HealthChanged? then e.kind.health
               else if !provider.OpenCode? && IsHook(e) && !health.Healthy? then Healthy(Option.None)
               else health
  }

  lemma HealthOneMore(provider: Provider, events: seq<Event>, e: Event, health: Health, health': Health)
    requires HealthTold(provider, events, health) && HealthNext(provider, e, health, health')
    ensures HealthTold(provider, events + [e], health')
  {
    hide HookFrom, IsHook, LastHealth, HealthNext;
    var more, n := events + [e], |events|;
    forall i | LastHealth(more, i)
      ensures 0 <= i < |more| && more[i].kind.HealthChanged?
      ensures health' == if !provider.OpenCode? && !more[i].kind.health.Healthy? && HookFrom(more, i + 1)
                         then Healthy(Option.None) else more[i].kind.health
    {
      LastHealthWithin(events, i);
      LastHealthOneMore(provider, events, e, health, health', i);
    }
    if forall i :: 0 <= i < |more| ==> !more[i].kind.HealthChanged? {
      assert more[n] == e;
      forall i | 0 <= i < n ensures !events[i].kind.HealthChanged? {
        assert more[i] == events[i];
      }
      FailureOneMore(events, e, 0);
      assert HealthNext(provider, e, health, health');
      HealthWithoutReport(provider, e, health, health');
    }
  }

  lemma HealthWithoutReport(provider: Provider, e: Event, health: Health, health': Health)
    requires HealthNext(provider, e, health, health') && !e.kind.HealthChanged?
    ensures health' == if !provider.OpenCode? && IsHook(e) && !health.Healthy? then Healthy(Option.None) else health
  {
  }

  lemma LastHealthWithin(events: seq<Event>, i: int)
    ensures LastHealth(events, i) ==> 0 <= i < |events| && events[i].kind.HealthChanged?
  {
  }

  lemma LastHealthOneMore(provider: Provider, events: seq<Event>, e: Event, health: Health, health': Health, i: int)
    requires LastHealth(events + [e], i) && HealthNext(provider, e, health, health')
    requires LastHealth(events, i) ==>
               && 0 <= i < |events|
               && health == if !provider.OpenCode? && !events[i].kind.health.Healthy? && HookFrom(events, i + 1)
                            then Healthy(Option.None) else events[i].kind.health
    ensures var more := events + [e];
            && 0 <= i < |more| && more[i].kind.HealthChanged?
            && health' == if !provider.OpenCode? && !more[i].kind.health.Healthy? && HookFrom(more, i + 1)
                          then Healthy(Option.None) else more[i].kind.health
  {
    hide HookFrom, IsHook;
    var more, n := events + [e], |events|;
    assert more[n] == e && forall j :: 0 <= j < n ==> more[j] == events[j];
    if i < n {
      assert !more[n].kind.HealthChanged?;
      assert LastHealth(events, i);
      FailureOneMore(events, e, i + 1);
    } else {
      NothingAfterLast(more);
    }
  }

  lemma NothingAfterLast(events: seq<Event>)
    ensures !HookFrom(events, |events|) && !FailsFrom(events, |events|)
  {
  }

  /**
   What an accepted event shows, whatever the tracker was, an overlay included. A completed turn that is not
   suppressed raises the completion; a suppressed one and a health report leave the state, unless the report is a
   failure.
   */
  lemma AcceptedEventShows(t: State, e: Event)
    requires ApplyEvent(t, e).1.Applied?
    ensures var s, s' := SnapshotOf(t), ApplyEvent(t, e).1.snapshot;
            var counted := e.kind.TurnCompleted? && !s.suppressed;
            && s'.completion == (if counted then (s.completion + 1) % TWO_64 else s.completion)
            && (s'.suppressed <==>
                  !IsCertain(e.kind) && (s.suppressed || (e.kind.StateUnknown? && e.source.ProcessSupervisor?)))
            && (if counted || IsCertain(e.kind) || e.kind.StateUnknown?
                then Shows(e.kind, false, s'.completion > s'.seen, s'.state)
                else if IsFailure(e) && t.blocker.None?
                then s'.state == if s.state.Exited? then s.state else AgentState.Unknown
                else s'.state == s.state)
  {
    match e.kind {
      case Ready =>
      case Working =>
      case NeedsInput =>
      case TurnCompleted =>
      case StateUnknown =>
      case Exited(_) =>
      case HealthChanged(_) =>
    }
  }

  /** The rest of the snapshot after an accepted event. */
  lemma AcceptedEventCounts(t: State, e: Event)
    requires ApplyEvent(t, e).1.Applied?
    ensures var s, s' := SnapshotOf(t), ApplyEvent(t, e).1.snapshot;
            && s' == SnapshotOf(ApplyEvent(t, e).0)
            && s'.run == s.run && s'.provider == s.provider && s'.capability == s.capability && s'.seen == s.seen
            && s'.revision == (s.revision + 1) % TWO_64
            && s'.lastSequence == Some(e.sequence)
            && s'.lastAt
                 == Some(if s.lastAt.Some? && s.lastAt.value > e.observedAt then s.lastAt.value else e.observedAt)
            && HealthNext(s.provider, e, s.health, s'.health)
    ensures var t' := ApplyEvent(t, e).0;
            && t'.lastKind == Some(e.kind) && !t'.authority.None?
            && (t'.authority.ProviderIntegration? <==> e.source.ProviderIntegration?)
            && (t'.authority.IntegrationSupervisor? <==> e.source.IntegrationSupervisor?)
  {
    hide EffectiveState;
  }

  /**
   An event is refused exactly if it is about another run or provider, not newer than all before, or not its
   source's to tell.
   */
  lemma RefusedExactly(t: State, e: Event)
    ensures ApplyEvent(t, e).1.Applied? <==>
              && e.run == t.run && e.provider == t.provider
              && (t.lastSequence.Some? ==> e.sequence > t.lastSequence.value)
              && Tells(e.source, e.kind)
              && (e.kind.NeedsInput? ==> t.capability.AcceptsProviderEvents())
    ensures !ApplyEvent(t, e).1.Applied? ==> ApplyEvent(t, e).0 == t
  {
  }

  /** What each source may tell. */
  predicate Tells(source: Source, kind: Kind) {
    match source
    case ProviderIntegration => !kind.Exited?
    case IntegrationSupervisor => kind.HealthChanged?
    case ProcessSupervisor => kind.Exited? || kind.StateUnknown?
  }

  lemma ToldOneMore(t: State, e: Event, events: seq<Event>)
    requires Told(SnapshotOf(t), events) && t.blocker == Option.None && ApplyEvent(t, e).1.Applied?
    ensures Told(SnapshotOf(ApplyEvent(t, e).0), events + [e]) && ApplyEvent(t, e).0.blocker == Option.None
  {
    hide ApplyEvent, SnapshotOf, LostTrack, StateTold, HealthTold, Completed, Counts, HealthNext, IsFailure;
    var s, s', more := SnapshotOf(t), SnapshotOf(ApplyEvent(t, e).0), events + [e];
    AcceptedEventShows(t, e);
    AcceptedEventCounts(t, e);
    EventsKeepSettled(t, e);
    PrefixSays(events, e);
    LossOneMore(events, e);
    assert more[..|events|] == events;
    StateOneMore(events, e, s.completion > s.seen, s.state, s'.completion > s'.seen, s'.state);
    HealthOneMore(s.provider, events, e, s.health, s'.health);
  }

  lemma EventsKeepSettled(t: State, e: Event)
    requires t.blocker == Option.None
    ensures ApplyEvent(t, e).0.blocker == Option.None && SnapshotOf(t).provider == t.provider
  {
  }

  /** Looking at the run changes only what has been seen, and shows Ready instead of Done. */
  lemma SeeingShows(t: State)
    ensures var s, s' := SnapshotOf(t), SnapshotOf(MarkSeen(t));
            && s'.completion == s.completion && s'.suppressed == s.suppressed && s'.health == s.health
            && s'.lastSequence == s.lastSequence && s'.lastAt == s.lastAt && s'.provider == s.provider
            && s'.seen == (if s.seen < s.completion then s.completion else s.seen)
            && s'.revision == (if s.seen < s.completion then (s.revision + 1) % TWO_64 else s.revision)
            && s'.state == (if s.state.Done? then AgentState.Ready else s.state)
            && MarkSeen(t).blocker == t.blocker
  {
  }

  lemma StateOnceSeen(events: seq<Event>, unseen: bool, state: AgentState)
    requires StateTold(events, unseen, state)
    ensures StateTold(events, false, if state.Done? then AgentState.Ready else state)
  {
  }

  /** Whatever happened, the snapshot is what the accepted events say. */
  lemma {:induction false} SnapshotTellsHistory(run: RunId, provider: Provider, capability: Capability,
                                                moves: seq<Move>)
    ensures var start := New(run, provider, capability);
            var s := SnapshotOf(After(start, moves));
            && Told(s, Accepted(start, moves)) && s.run == run && s.provider == provider && s.capability == capability
            && After(start, moves).blocker == Option.None
  {
    hide Told, ApplyEvent, SnapshotOf, MarkSeen;
    var start := New(run, provider, capability);
    if moves == [] {
      NothingTold(run, provider, capability);
    } else {
      var before, last := moves[..|moves| - 1], moves[|moves| - 1];
      SnapshotTellsHistory(run, provider, capability, before);
      var t := After(start, before);
      match last {
        case Happens(e) =>
          if ApplyEvent(t, e).1.Applied? {
            ToldOneMore(t, e, Accepted(start, before));
            AcceptedEventCounts(t, e);
          } else {
            RefusedExactly(t, e);
            assert Accepted(start, moves) == Accepted(start, before);
          }
        case IsSeen =>
          ToldOnceSeen(t, Accepted(start, before));
          assert Accepted(start, moves) == Accepted(start, before);
      }
    }
  }

  /** The events accepted before the last look at the run. */
  function SeenEvents(start: State, moves: seq<Move>): seq<Event> {
    if moves == [] then []
    else
      var before := moves[..|moves| - 1];
      if moves[|moves| - 1].IsSeen? then Accepted(start, before) else SeenEvents(start, before)
  }

  /**
   Seen are the turns counted up to the last look, so a run at rest is Done exactly if a turn has been counted
   since (the counter wraps only at 2^64 turns).
   */
  lemma {:induction false} SeenUpToLastLook(run: RunId, provider: Provider, capability: Capability, moves: seq<Move>)
    requires Completed(Accepted(New(run, provider, capability), moves)) < TWO_64
    ensures var start := New(run, provider, capability);
            var s := SnapshotOf(After(start, moves));
            && s.completion == Completed(Accepted(start, moves))
            && s.seen == Completed(SeenEvents(start, moves)) <= s.completion
            && (s.state.Done? ==> Completed(SeenEvents(start, moves)) < Completed(Accepted(start, moves)))
            && (s.state.Ready? ==> Completed(SeenEvents(start, moves)) == Completed(Accepted(start, moves)))
  {
    hide Told, ApplyEvent, SnapshotOf, MarkSeen, Completed;
    var start := New(run, provider, capability);
    SnapshotTellsHistory(run, provider, capability, moves);
    ShownAtRest(After(start, moves), Accepted(start, moves));
    if moves == [] {
      NothingSeen(run, provider, capability);
    } else {
      var before, last := moves[..|moves| - 1], moves[|moves| - 1];
      var t := After(start, before);
      SnapshotTellsHistory(run, provider, capability, before);
      ShownAtRest(t, Accepted(start, before));
      match last {
        case Happens(e) =>
          assert Accepted(start, before) + [] == Accepted(start, before);
          CompletedOneMore(Accepted(start, before), e);
          SeenUpToLastLook(run, provider, capability, before);
          if ApplyEvent(t, e).1.Applied? {
            AcceptedEventCounts(t, e);
          } else {
            RefusedExactly(t, e);
          }
        case IsSeen =>
          assert Accepted(start, moves) == Accepted(start, before);
          SeenUpToLastLook(run, provider, capability, before);
          SeeingShows(t);
      }
    }
  }

  lemma ShownAtRest(t: State, events: seq<Event>)
    requires Told(SnapshotOf(t), events) && t.blocker == Option.None
    ensures SnapshotOf(t).completion == Completed(events) % TWO_64
    ensures SnapshotOf(t).state.Done? ==> SnapshotOf(t).completion > SnapshotOf(t).seen
    ensures SnapshotOf(t).state.Ready? ==> SnapshotOf(t).completion <= SnapshotOf(t).seen
  {
    hide StateTold, HealthTold, LostTrack, Completed;
  }

  lemma CompletedOneMore(events: seq<Event>, e: Event)
    ensures Completed(events) <= Completed(events + [e])
  {
    PrefixSays(events, e);
  }

  lemma NothingSeen(run: RunId, provider: Provider, capability: Capability)
    ensures SnapshotOf(New(run, provider, capability)).seen == 0 == Completed([])
  {
  }

  lemma ToldOnceSeen(t: State, events: seq<Event>)
    requires Told(SnapshotOf(t), events)
    ensures Told(SnapshotOf(MarkSeen(t)), events) && MarkSeen(t).blocker == t.blocker
    ensures SnapshotOf(MarkSeen(t)).run == SnapshotOf(t).run
    ensures SnapshotOf(MarkSeen(t)).capability == SnapshotOf(t).capability
    ensures SnapshotOf(MarkSeen(t)).provider == SnapshotOf(t).provider
  {
    hide StateTold, HealthTold, LostTrack;
    var s := SnapshotOf(t);
    SeeingShows(t);
    if s.seen < s.completion {
      StateOnceSeen(events, true, s.state);
    } else {
      StateOnceSeen(events, false, s.state);
    }
  }

  lemma NothingTold(run: RunId, provider: Provider, capability: Capability)
    ensures var t := New(run, provider, capability);
            && Told(SnapshotOf(t), []) && t.blocker == Option.None
            && SnapshotOf(t).run == run && SnapshotOf(t).provider == provider && SnapshotOf(t).capability == capability
  {
    assert LostTrack([]) == false;
  }
}

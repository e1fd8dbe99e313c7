/** The source-run supervisor: one build in flight, one client, rebuilt and reloaded when the sources change. */
module Supervisor {
  import opened Prelude
  import opened SupervisorLog
  import opened SupervisorTurns

  function ToSet(o: Option<nat>): set<nat> {
    match o
    case None => {}
    case Some(n) => {n}
  }

  class Supervisor {
    const debounce: nat
    var binary: Option<nat>
    var client: Option<nat>
    var build: Option<nat>
    var changedAt: Option<nat>
    var nextSequence: nat
    var storageWarningShown: bool
    /** Everything that happened, and the processes started and not seen to end. */
    ghost var log: seq<Event>
    ghost var liveBuilds: set<nat>
    ghost var liveClients: set<nat>

    /** The first build is started before the supervisor exists. */
    constructor (debounce: nat)
      ensures Valid() && log == [Started(1)] && this.debounce == debounce
      ensures Values() == Fields(Option.None, Option.None, Some(1), Option.None, 2, false)
    {
      this.debounce := debounce;
      binary, client, build, changedAt := Option.None, Option.None, Some(1), Option.None;
      nextSequence, storageWarningShown := 2, false;
      log, liveBuilds, liveClients := [Started(1)], {1}, {};
      new;
      Appended([], Started(1));
      assert [] + [Started(1)] == log;
    }

    function Values(): Fields
      reads this
    {
      Fields(binary, client, build, changedAt, nextSequence, storageWarningShown)
    }

    /** What has happened since the log was `start` is this phase. */
    ghost predicate Took(start: seq<Event>, phase: Phase, r: Outcome)
      reads this
    {
      Values() == phase.fields && log == start + phase.events && r == phase.outcome
    }

    /** Holds at all times, also after a failure: at most one live build and one live client. */
    ghost predicate Contained()
      reads this
    {
      && History(log)
      && build == ViewOf(log).inFlight
      && liveBuilds == ToSet(ViewOf(log).inFlight)
      && liveClients == ToSet(ViewOf(log).running)
      && (binary.Some? ==> client.Some?)
    }

    /** Holds while the loop goes on. */
    ghost predicate Valid()
      reads this
    {
      && Contained()
      && client == ViewOf(log).running
      && (client.Some? ==> binary.Some?)
      && changedAt.Some? == ViewOf(log).pending
      && nextSequence == ViewOf(log).starts + 1
    }

    /** A client is running that the supervisor does not hold. */
    ghost predicate Orphaned()
      reads this
    {
      ViewOf(log).running.Some? && client != ViewOf(log).running
    }

    ghost method Note(e: Event)
      requires History(log) && Allowed(ViewOf(log), e)
      modifies this`log
      ensures log == old(log) + [e] && History(log) && ViewOf(log) == Next(ViewOf(old(log)), e)
    {
      Appended(log, e);
      log := log + [e];
    }

    method ReceiveSourceEvents(turn: Turn) returns (r: Outcome)
      requires Valid()
      modifies this`changedAt, this`log
      ensures Valid() && old(log) <= log
      ensures Took(old(log), Receiving(old(Values()), turn.now, turn.received), r)
    {
      hide ViewOf, History;
      ghost var events: seq<Event> := [];
      for i := 0 to |turn.received|
        invariant Valid() && old(log) <= log
        invariant var rest := Receiving(Values(), turn.now, turn.received[i..]);
                  Receiving(old(Values()), turn.now, turn.received) == rest.(events := events + rest.events)
        invariant log == old(log) + events
      {
        assert turn.received[i..][1..] == turn.received[i + 1..];
        match turn.received[i] {
          case Err(error) =>
            return Err(error);
          case Ok(Changed) =>
            Note(Received);
            events := events + [Received];
            changedAt := Some(turn.now);
          case Ok(WatchFailed(logged)) =>
            if logged.Err? {
              return Err(logged.error);
            }
        }
      }
      return Ok(());
    }

    method StartBuildIfReady(turn: Turn) returns (r: Outcome)
      requires Valid()
      modifies this`changedAt, this`build, this`nextSequence, this`log, this`liveBuilds
      ensures Contained() && client == ViewOf(log).running && old(log) <= log
      ensures Took(old(log), Starting(old(Values()), debounce, turn), r)
      ensures r.Ok? ==> Valid()
      ensures old(build).Some? || old(changedAt).None? || turn.now < old(changedAt).value + debounce ==>
                r.Ok? && log == old(log) && build == old(build) && changedAt == old(changedAt)
      ensures old(build).None? && old(changedAt).Some? && turn.now >= old(changedAt).value + debounce ==>
                && changedAt == Option.None
                && if turn.start.Ok?
                     then r.Ok? && log == old(log) + [Started(old(nextSequence))] && build == Some(old(nextSequence))
                   else r == turn.start && log == old(log)
    {
      hide ViewOf, History;
      if build.Some? || changedAt.None? || turn.now - changedAt.value < debounce {
        return Ok(());
      }
      changedAt := Option.None;
      if turn.start.Err? {
        return turn.start;
      }
      build := Some(nextSequence);
      liveBuilds := liveBuilds + {nextSequence};
      Note(Started(nextSequence));
      nextSequence := nextSequence + 1;
      return Ok(());
    }

    /**
     A build that failed, went stale or could not be published changes nothing but the build slot. A client is
     orphaned exactly when it was launched but the file of the one before it could not be removed.
     */
    method FinishBuild(turn: Turn) returns (r: Outcome)
      requires Valid()
      modifies this
      ensures Contained() && (r.Ok? ==> Valid()) && old(log) <= log
      ensures Took(old(log), Finishing(old(Values()), turn), r)
      ensures Orphaned() ==> |old(log)| < |log| && log[|log| - 1].Launched?
      ensures Orphaned() <==>
                && old(build).Some? && turn.buildExit == Ok(Some(true)) && old(changedAt).None? && turn.publish.Ok?
                && old(client).Some? && turn.stop.Ok? && turn.launch.Ok? && turn.remove.Err?
    {
      hide ViewOf, History, Launching, Finishing;
      ghost var f, start := Values(), log;
      FinishingCases(f, turn);
      if build.None? || turn.buildExit == Ok(Option.None) {
        return Ok(());
      }
      if turn.buildExit.Err? {
        return Err(turn.buildExit.error);
      }
      var completed, success := build.value, turn.buildExit.value.value;
      build := Option.None;
      liveBuilds := liveBuilds - {completed};
      Note(Ended(completed, success));
      if !success || changedAt.Some? || turn.publish.Err? {
        return turn.logged;
      }
      r := LaunchNext(turn, completed);
      assert log == start + ([Ended(completed, true)] + Launching(f.(build := Option.None), turn, completed).events);
    }

    method LaunchNext(turn: Turn, next: nat) returns (r: Outcome)
      requires Valid() && ViewOf(log).built == Some(next) && !ViewOf(log).pending
      modifies this`log, this`client, this`binary, this`liveClients, this`storageWarningShown
      ensures Contained() && (r.Ok? ==> Valid()) && old(log) <= log
      ensures Took(old(log), Launching(old(Values()), turn, next), r)
      ensures Orphaned() ==> |old(log)| < |log| && log[|log| - 1].Launched?
      ensures Orphaned() <==> old(client).Some? && turn.stop.Ok? && turn.launch.Ok? && turn.remove.Err?
    {
      hide ViewOf, History, Launching, Stopping;
      ghost var f, start := Values(), log;
      LaunchingCases(f, turn, next);
      NumbersDiffer(log);
      r := GiveWay(turn, next);
      if r.Err? {
        return;
      }
      if turn.launch.Err? {
        return turn.launch;
      }
      r := StartClient(turn, next);
      assert log == start + (Stopping(f, next) + [Launched(next)]);
    }

    /** The bundle is published, and a client that is running stopped for it. */
    method GiveWay(turn: Turn, next: nat) returns (r: Outcome)
      requires Valid() && ViewOf(log).built == Some(next) && !ViewOf(log).pending
      modifies this`log, this`liveClients
      ensures Contained() && !Orphaned() && old(log) <= log
      ensures r.Ok? <==> (client.Some? ==> turn.stop.Ok?)
      ensures r.Err? ==> r == turn.stop
      ensures log == old(log) + if r.Ok? then Stopping(old(Values()), next) else [Published(next)]
      ensures r.Ok? ==> ViewOf(log) == ViewOf(old(log)).(candidate := Some(next), running := Option.None)
    {
      hide ViewOf, History;
      NumbersDiffer(log);
      Note(Published(next));
      if client.Some? {
        if turn.stop.Err? {
          return turn.stop;
        }
        liveClients := liveClients - {client.value};
        Note(Stopped(client.value));
      }
      return DONE;
    }

    /** The next client is launched; then the last one's file goes. */
    method StartClient(turn: Turn, next: nat) returns (r: Outcome)
      requires Contained() && ViewOf(log).candidate == Some(next) && ViewOf(log).running.None?
      requires ViewOf(log).pending == changedAt.Some? && nextSequence == ViewOf(log).starts + 1
      requires client.Some? == binary.Some?
      modifies this`log, this`client, this`binary, this`liveClients, this`storageWarningShown
      ensures Contained() && (r.Ok? ==> Valid())
      ensures log == old(log) + [Launched(next)] && ViewOf(log).running == Some(next)
      ensures if old(binary).Some? && turn.remove.Err?
              then r == turn.remove && Values() == old(Values()).(binary := Option.None)
              else && Values() == old(Values()).(binary := Some(next), client := Some(next),
                                                 warned := storageWarningShown)
                   && r == (if old(storageWarningShown) || turn.bundles.Ok? then DONE else Err(turn.bundles.error))
                   && storageWarningShown ==
                      (old(storageWarningShown) || (turn.bundles.Ok? && turn.bundles.value > MAX_QUIET_BUNDLES))
    {
      hide ViewOf, History;
      liveClients := liveClients + {next};
      Note(Launched(next));
      if binary.Some? {
        binary := Option.None;
        if turn.remove.Err? {
          return turn.remove;
        }
      }
      binary := Some(next);
      client := Some(next);
      r := WarnStorageIfNeeded(turn.bundles);
    }

    method WarnStorageIfNeeded(bundles: Result<nat, string>) returns (r: Outcome)
      modifies this`storageWarningShown
      ensures r == if old(storageWarningShown) || bundles.Ok? then DONE else Err(bundles.error)
      ensures storageWarningShown ==
              (old(storageWarningShown) || (bundles.Ok? && bundles.value > MAX_QUIET_BUNDLES))
    {
      if storageWarningShown {
        return Ok(());
      }
      if bundles.Err? {
        return Err(bundles.error);
      }
      if bundles.value > MAX_QUIET_BUNDLES {
        storageWarningShown := true;
      }
      return Ok(());
    }

    /**
     The loop by its turns: each one before the end has done its work, and the one that ends it answers as it has to.
     Nothing is returned while the loop is still going when the given turns are over.
     */
    method EventLoop(turns: seq<Turn>) returns (outcome: Option<Result<int, string>>, ghost ended: nat)
      requires Valid()
      modifies this
      ensures Contained() && old(log) <= log
      ensures outcome.None? ==> Valid()
      ensures ended <= |turns| && Before(old(Values()), debounce, turns, ended).Some?
      ensures var (before, events) := Before(old(Values()), debounce, turns, ended).value;
              if outcome.None? then ended == |turns| && Values() == before && log == old(log) + events
              else && ended < |turns|
                   && (Leaves(before, turns[ended]) || TurnOf(before, debounce, turns[ended]).outcome.Err?)
                   && var (answer, fields, last) := Leaving(before, debounce, turns[ended]);
                      outcome.value == answer && Values() == fields && log == old(log) + events + last
      ensures outcome.Some? && outcome.value.Ok? ==> !Orphaned()
      ensures Orphaned() ==> log[|log| - 1].Launched?
    {
      hide ViewOf, History, TurnOf;
      ended := 0;
      ghost var events: seq<Event> := [];
      for i := 0 to |turns|
        invariant Valid() && ended == i
        invariant Before(old(Values()), debounce, turns, i) == Some((Values(), events)) && log == old(log) + events
      {
        var turn := turns[i];
        if turn.stopping {
          return Some(Ok(0)), i;
        }
        if client.Some? {
          if turn.clientExit.Err? {
            return Some(Err(turn.clientExit.error)), i;
          }
          if turn.clientExit.value.Some? {
            liveClients := liveClients - {client.value};
            Note(Exited(client.value));
            var status := turn.clientExit.value.value;
            return Some(Ok(if status.Some? then status.value else 1)), i;
          }
        }
        ghost var work := TurnOf(Values(), debounce, turn);
        var r := OneTurn(turn);
        assert log == old(log) + (events + work.events);
        if r.Err? {
          return Some(Err(r.error)), i;
        }
        events := events + work.events;
        ended := i + 1;
      }
      return Option.None, |turns|;
    }

    method OneTurn(turn: Turn) returns (r: Outcome)
      requires Valid()
      modifies this
      ensures Contained() && old(log) <= log && (r.Ok? ==> Valid())
      ensures Took(old(log), TurnOf(old(Values()), debounce, turn), r)
      ensures Orphaned() ==> turn.remove.Err? && log[|log| - 1].Launched?
    {
      hide ViewOf, History, Receiving, Finishing, Starting;
      ghost var f, start := Values(), log;
      r := ReceiveSourceEvents(turn);
      if r.Err? {
        return;
      }
      ghost var received := Receiving(f, turn.now, turn.received);
      r := FinishBuild(turn);
      ghost var finished := Then(received, Finishing(received.fields, turn));
      assert Took(start, finished, r);
      if r.Err? {
        return;
      }
      r := StartBuildIfReady(turn);
      assert Took(start, Then(finished, Starting(finished.fields, debounce, turn)), r);
    }

    /** Leaves nothing running exactly when no client had been orphaned. */
    method Shutdown(cancel: Outcome, stop: Outcome, remove: Outcome) returns (r: Outcome)
      requires Contained()
      modifies this`liveBuilds, this`liveClients, this`binary
      ensures liveBuilds <= old(liveBuilds) && liveClients <= old(liveClients)
      ensures r.Ok? ==> liveBuilds == {} && (liveClients == {} <==> !Orphaned())
      ensures r.Ok? <==> ShutsDown(old(Values()), cancel, stop, remove)
      ensures r.Ok? ==> binary.None?
      ensures build.Some? && cancel.Err? ==> r == cancel
      ensures (build.Some? ==> cancel.Ok?) && client.Some? && stop.Err? ==> r == stop
    {
      hide ViewOf, History;
      if build.Some? {
        if cancel.Err? {
          return cancel;
        }
        liveBuilds := liveBuilds - {build.value};
      }
      if client.Some? {
        if stop.Err? {
          return stop;
        }
        liveClients := liveClients - {client.value};
      }
      assert Orphaned() ==> ViewOf(log).running.value in liveClients;
      if binary.Some? {
        binary := Option.None;
        if remove.Err? {
          return remove;
        }
      }
      return Ok(());
    }
  }

  /** What is still running can be stopped, and the last file removed. */
  predicate ShutsDown(f: Fields, cancel: Outcome, stop: Outcome, remove: Outcome) {
    (f.build.Some? ==> cancel.Ok?) && (f.client.Some? ==> stop.Ok?) && (f.binary.Some? ==> remove.Ok?)
  }

  /** The first build is on its way. */
  const LAUNCHED := Fields(Option.None, Option.None, Some(1), Option.None, 2, false)

  /** A whole supervised run. Success means that nothing it started is left running. */
  method Run(debounce: nat, turns: seq<Turn>, cancel: Outcome, stop: Outcome, remove: Outcome)
    returns (r: Option<Result<int, string>>, supervisor: Supervisor, ghost ended: nat)
    ensures fresh(supervisor) && History(supervisor.log)
    ensures ended <= |turns| && Before(LAUNCHED, debounce, turns, ended).Some?
    ensures var (before, events) := Before(LAUNCHED, debounce, turns, ended).value;
            if r.None? then ended == |turns| && supervisor.log == [Started(1)] + events
            else && ended < |turns|
                 && (Leaves(before, turns[ended]) || TurnOf(before, debounce, turns[ended]).outcome.Err?)
                 && var (answer, fields, last) := Leaving(before, debounce, turns[ended]);
                    && supervisor.log == [Started(1)] + events + last
                    && if answer.Err? || ShutsDown(fields, cancel, stop, remove) then r.value == answer
                         else r.value.Err?
    ensures r.Some? && r.value.Ok? ==> supervisor.liveBuilds == {} && supervisor.liveClients == {}
    ensures |supervisor.liveBuilds| <= 1 && |supervisor.liveClients| <= 1
  {
    supervisor := new Supervisor(debounce);
    hide Before, Leaves, Leaving, TurnOf, ViewOf, History;
    var outcome;
    outcome, ended := supervisor.EventLoop(turns);
    SmallSets(supervisor.liveBuilds, ViewOf(supervisor.log).inFlight);
    SmallSets(supervisor.liveClients, ViewOf(supervisor.log).running);
    if outcome.None? {
      return Option.None, supervisor, ended;
    }
    var cleanup := supervisor.Shutdown(cancel, stop, remove);
    if outcome.value.Ok? && cleanup.Err? {
      return Some(Err(cleanup.error)), supervisor, ended;
    }
    return outcome, supervisor, ended;
  }

  // ---- a run that leaves a client behind

  /** A turn in which everything asked for succeeds. */
  function SmoothTurn(received: seq<Result<SourceEvent, string>>, remove: Outcome): Turn {
    Turn(0, false, Ok(Option.None), received, Ok(Some(true)), DONE, DONE, DONE, DONE, remove, Ok(0), DONE)
  }

  /** The three turns of such a run: the first client, the second build, and the second client. */
  lemma SmoothTurns()
    ensures TurnOf(Fields(Option.None, Option.None, Some(1), Option.None, 2, false), 0, SmoothTurn([], DONE)).fields
         == Fields(Some(1), Some(1), Option.None, Option.None, 2, false)
    ensures TurnOf(Fields(Some(1), Some(1), Option.None, Option.None, 2, false), 0,
                   SmoothTurn([Ok(Changed)], DONE)).fields
         == Fields(Some(1), Some(1), Some(2), Option.None, 3, false)
    ensures TurnOf(Fields(Option.None, Option.None, Some(1), Option.None, 2, false), 0,
                   SmoothTurn([], DONE)).outcome.Ok?
    ensures TurnOf(Fields(Some(1), Some(1), Option.None, Option.None, 2, false), 0,
                   SmoothTurn([Ok(Changed)], DONE)).outcome.Ok?
    ensures var t := TurnOf(Fields(Some(1), Some(1), Some(2), Option.None, 3, false), 0,
                            SmoothTurn([], Err("the file is in use")));
            t.outcome.Err? && t.fields == Fields(Option.None, Some(1), Option.None, Option.None, 3, false)
            && t.events == [Ended(2, true), Published(2), Stopped(1), Launched(2)]
  {
    assert SmoothTurn([Ok(Changed)], DONE).received[1..] == [];
  }

  /**
   The first client is launched, the sources change, and the second client replaces the first, whose file
   cannot be removed. The run ends with that error; shutting down stops the first client once more and
   succeeds, and the second one is still running.
   */
  method LeaveClientBehind() returns (supervisor: Supervisor, ended: Outcome, shutdown: Outcome)
    ensures ended.Err? && shutdown.Ok?
    ensures fresh(supervisor) && supervisor.Orphaned() && supervisor.liveClients != {}
  {
    hide ViewOf, History, TurnOf;
    SmoothTurns();
    var smooth, changed := SmoothTurn([], DONE), SmoothTurn([Ok(Changed)], DONE);
    supervisor := new Supervisor(0);
    var first := supervisor.OneTurn(smooth);
    var second := supervisor.OneTurn(changed);
    ended := supervisor.OneTurn(SmoothTurn([], Err("the file is in use")));
    assert supervisor.log[|supervisor.log| - 1] == Launched(2);
    LastLaunchRuns(supervisor.log);
    shutdown := supervisor.Shutdown(DONE, DONE, DONE);
  }

  lemma LastLaunchRuns(log: seq<Event>)
    requires log != [] && log[|log| - 1].Launched?
    ensures ViewOf(log).running == Some(log[|log| - 1].client)
  {
  }

  lemma SmallSets(live: set<nat>, o: Option<nat>)
    requires live == ToSet(o)
    ensures forall s :: s <= live ==> |s| <= 1
  {
    forall s: set<nat> | s <= live ensures |s| <= 1 {
      if o.Some? && o.value in s {
        assert s == {o.value};
      } else {
        assert s == {};
      }
    }
  }
}

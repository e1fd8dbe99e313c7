/**
 One turn of the supervised run and a whole loop of them, as values: what the fields become, what is
 added to the log, and what that means for changes, builds and clients.
 */
module SupervisorTurns {
  import opened Prelude
  import opened SupervisorLog

  type Outcome = Result<(), string>

  /** A report of the source watch; a failed watch is written to the build log. */
  datatype SourceEvent = Changed | WatchFailed(logged: Outcome)

  /** What the world answers during one turn of the loop. */
  datatype Turn = Turn(
    now: nat,
    stopping: bool,
    clientExit: Result<Option<Option<int>>, string>,
    received: seq<Result<SourceEvent, string>>,
    buildExit: Result<Option<bool>, string>,
    logged: Outcome,
    publish: Outcome,
    stop: Outcome,
    launch: Outcome,
    remove: Outcome,
    bundles: Result<nat, string>,
    start: Outcome)

  datatype Fields = Fields(binary: Option<nat>, client: Option<nat>, build: Option<nat>, changedAt: Option<nat>,
                           nextSequence: nat, warned: bool)

  /** The fields afterwards, what was logged, and whether the run goes on. */
  datatype Phase = Phase(fields: Fields, events: seq<Event>, outcome: Outcome)

  const DONE: Outcome := Ok(())

  function Receiving(f: Fields, now: nat, received: seq<Result<SourceEvent, string>>): Phase
    decreases |received|
  {
    if received == [] then Phase(f, [], DONE)
    else
      match received[0]
      case Err(error) => Phase(f, [], Err(error))
      case Ok(Changed) =>
        var rest := Receiving(f.(changedAt := Some(now)), now, received[1..]);
        rest.(events := [Received] + rest.events)
      case Ok(WatchFailed(logged)) =>
        if logged.Err? then Phase(f, [], Err(logged.error)) else Receiving(f, now, received[1..])
  }

  function Finishing(f: Fields, turn: Turn): Phase {
    if f.build.None? || turn.buildExit == Ok(Option.None) then Phase(f, [], DONE)
    else if turn.buildExit.Err? then Phase(f, [], Err(turn.buildExit.error))
    else
      var completed, success, idle := f.build.value, turn.buildExit.value.value, f.(build := Option.None);
      if !success || f.changedAt.Some? || turn.publish.Err? then Phase(idle, [Ended(completed, success)], turn.logged)
      else
        var launch := Launching(idle, turn, completed);
        launch.(events := [Ended(completed, true)] + launch.events)
  }

  function Launching(f: Fields, turn: Turn, next: nat): Phase {
    var published := [Published(next)];
    if f.client.Some? && turn.stop.Err? then Phase(f, published, turn.stop)
    else
      var stopped := Stopping(f, next);
      if turn.launch.Err? then Phase(f, stopped, turn.launch)
      else
        var launched := stopped + [Launched(next)];
        if f.binary.Some? && turn.remove.Err? then Phase(f.(binary := Option.None), launched, turn.remove)
        else
          var running := f.(binary := Some(next), client := Some(next));
          if f.warned then Phase(running, launched, DONE)
          else if turn.bundles.Err? then Phase(running, launched, Err(turn.bundles.error))
          else Phase(running.(warned := turn.bundles.value > MAX_QUIET_BUNDLES), launched, DONE)
  }

  const MAX_QUIET_BUNDLES := 5

  function Starting(f: Fields, debounce: nat, turn: Turn): Phase {
    if f.build.Some? || f.changedAt.None? || turn.now < f.changedAt.value + debounce then Phase(f, [], DONE)
    else if turn.start.Err? then Phase(f.(changedAt := Option.None), [], turn.start)
    else
      var started := f.(changedAt := Option.None, build := Some(f.nextSequence), nextSequence := f.nextSequence + 1);
      Phase(started, [Started(f.nextSequence)], DONE)
  }

  /** The next step is taken if this one succeeded. */
  function Then(first: Phase, next: Phase): Phase {
    if first.outcome.Err? then first else next.(events := first.events + next.events)
  }

  function TurnOf(f: Fields, debounce: nat, turn: Turn): Phase {
    var received := Receiving(f, turn.now, turn.received);
    var finished := Then(received, Finishing(received.fields, turn));
    Then(finished, Starting(finished.fields, debounce, turn))
  }

  /** What is logged until the last client has given way. */
  function Stopping(f: Fields, next: nat): seq<Event> {
    [Published(next)] + if f.client.Some? then [Stopped(f.client.value)] else []
  }

  lemma LaunchingCases(f: Fields, turn: Turn, next: nat)
    ensures var r := Launching(f, turn, next);
            if f.client.Some? && turn.stop.Err? then r == Phase(f, [Published(next)], turn.stop)
            else if turn.launch.Err? then r == Phase(f, Stopping(f, next), turn.launch)
            else
              && r.events == Stopping(f, next) + [Launched(next)]
              && if f.binary.Some? && turn.remove.Err?
                 then r.fields == f.(binary := Option.None) && r.outcome == turn.remove
                 else && r.fields == f.(binary := Some(next), client := Some(next), warned := r.fields.warned)
                      && (if f.warned then r.outcome == DONE && r.fields.warned
                          else && r.outcome == (if turn.bundles.Ok? then DONE else Err(turn.bundles.error))
                               && r.fields.warned == (turn.bundles.Ok? && turn.bundles.value > MAX_QUIET_BUNDLES))
  {
  }

  lemma FinishingCases(f: Fields, turn: Turn)
    ensures var r := Finishing(f, turn);
            if f.build.None? || turn.buildExit == Ok(Option.None) then r == Phase(f, [], DONE)
            else if turn.buildExit.Err? then r == Phase(f, [], Err(turn.buildExit.error))
            else if !turn.buildExit.value.value || f.changedAt.Some? || turn.publish.Err? then
              r == Phase(f.(build := Option.None), [Ended(f.build.value, turn.buildExit.value.value)], turn.logged)
            else
              var launch := Launching(f.(build := Option.None), turn, f.build.value);
              r == launch.(events := [Ended(f.build.value, true)] + launch.events)
  {
    hide Launching;
  }

  // ---- a loop of turns

  /** The loop ends before the turn's work: it is told to stop, or the client has gone or cannot be asked. */
  predicate Leaves(f: Fields, turn: Turn) {
    turn.stopping || (f.client.Some? && (turn.clientExit.Err? || turn.clientExit.value.Some?))
  }

  /** The fields before turn `i`, if the loop gets there, and everything logged by then. */
  function Before(f: Fields, debounce: nat, turns: seq<Turn>, i: nat): Option<(Fields, seq<Event>)>
    requires i <= |turns|
  {
    if i == 0 then Some((f, []))
    else
      match Before(f, debounce, turns, i - 1)
      case None => Option.None
      case Some((g, events)) =>
        var turn := TurnOf(g, debounce, turns[i - 1]);
        if Leaves(g, turns[i - 1]) || turn.outcome.Err? then Option.None else Some((turn.fields, events + turn.events))
  }

  /** How the loop ends at this turn: with what answer, fields and addition to the log. */
  function Leaving(f: Fields, debounce: nat, turn: Turn): (Result<int, string>, Fields, seq<Event>)
    requires Leaves(f, turn) || TurnOf(f, debounce, turn).outcome.Err?
  {
    if turn.stopping then (Ok(0), f, [])
    else if Leaves(f, turn) then
      if turn.clientExit.Err? then (Err(turn.clientExit.error), f, [])
      else
        var status := turn.clientExit.value.value;
        (Ok(if status.Some? then status.value else 1), f, [Exited(f.client.value)])
    else
      var work := TurnOf(f, debounce, turn);
      (Err(work.outcome.error), work.fields, work.events)
  }

  /**
   The run is over with zero when it is told to stop, or with what the client ended with, one if by a signal; the
   turn's work is not begun then. Anything else is an error.
   */
  lemma LoopAnswers(f: Fields, debounce: nat, turn: Turn, code: int)
    requires Leaves(f, turn) || TurnOf(f, debounce, turn).outcome.Err?
    ensures var (answer, fields, last) := Leaving(f, debounce, turn);
            var ended := !turn.stopping && f.client.Some? && turn.clientExit.Ok? && turn.clientExit.value.Some?;
            && (answer == Ok(code) <==>
                  || (turn.stopping && code == 0)
                  || (ended && turn.clientExit.value.value == Some(code))
                  || (ended && turn.clientExit.value.value.None? && code == 1))
            && (answer.Ok? ==> fields == f && last == if ended then [Exited(f.client.value)] else [])
            && (answer.Err? && f.client.Some? && turn.clientExit.Err? ==>
                  answer.error == turn.clientExit.error && fields == f && last == [])
            && (answer.Err? && !(f.client.Some? && turn.clientExit.Err?) ==>
                  && TurnOf(f, debounce, turn).outcome.Err? && answer.error == TurnOf(f, debounce, turn).outcome.error
                  && fields == TurnOf(f, debounce, turn).fields && last == TurnOf(f, debounce, turn).events)
  {
    hide TurnOf;
  }

  // ---- what a turn means

  /** The report does not end the run. */
  predicate Heard(report: Result<SourceEvent, string>) {
    report.Ok? && (report.value.WatchFailed? ==> report.value.logged.Ok?)
  }

  function Changes(received: seq<Result<SourceEvent, string>>): nat {
    if received == [] then 0 else (if received[0] == Ok(Changed) then 1 else 0) + Changes(received[1..])
  }

  /** The reports up to the first that ends the run. */
  function Audible(received: seq<Result<SourceEvent, string>>): seq<Result<SourceEvent, string>> {
    if received == [] || !Heard(received[0]) then [] else [received[0]] + Audible(received[1..])
  }

  /** Every change is logged and its time kept, up to a report that ends the run. */
  lemma {:induction false} ChangesAreReceived(f: Fields, now: nat, received: seq<Result<SourceEvent, string>>)
    ensures var r, changes := Receiving(f, now, received), Changes(Audible(received));
            && r.events == seq(changes, _ => Received)
            && r.fields == f.(changedAt := if changes > 0 then Some(now) else f.changedAt)
            && (r.outcome.Ok? <==> forall i :: 0 <= i < |received| ==> Heard(received[i]))
            && (r.outcome.Ok? ==> changes == Changes(received))
    decreases |received|
  {
    if received != [] {
      if Heard(received[0]) {
        ChangesAreReceived(if received[0].value.Changed? then f.(changedAt := Some(now)) else f, now, received[1..]);
        assert Audible(received)[1..] == Audible(received[1..]);
        assert forall i :: 0 < i < |received| ==> received[i] == received[1..][i - 1];
        assert forall i :: 0 <= i < |received[1..]| ==> received[1..][i] == received[i + 1];
      }
    }
  }

  /** A build that has finished is logged as ended, and a fresh one that could be published is launched. */
  lemma FinishedBuildEnds(f: Fields, turn: Turn)
    ensures var r := Finishing(f, turn);
            && (f.build.None? ==> r == Phase(f, [], DONE))
            && r.fields.changedAt == f.changedAt && r.fields.nextSequence == f.nextSequence
            && multiset(r.events)[Received] == 0
    ensures f.build.Some? && turn.buildExit.Ok? && turn.buildExit.value.Some? ==>
              && Finishing(f, turn).fields.build.None?
              && Ended(f.build.value, turn.buildExit.value.value) in Finishing(f, turn).events
    ensures Relaunches(f, turn) ==> Launched(f.build.value) in Finishing(f, turn).events
  {
    hide Launching;
    if f.build.Some? && turn.buildExit.Ok? && turn.buildExit.value.Some? {
      var events := Finishing(f, turn).events;
      assert events[0] == Ended(f.build.value, turn.buildExit.value.value);
      LaunchingLaunches(f.(build := Option.None), turn, f.build.value);
    }
  }

  lemma LaunchingLaunches(f: Fields, turn: Turn, next: nat)
    ensures var r := Launching(f, turn, next);
            && r.fields.build == f.build && r.fields.changedAt == f.changedAt && r.fields.nextSequence == f.nextSequence
            && multiset(r.events)[Received] == 0
            && ((f.client.Some? ==> turn.stop.Ok?) && turn.launch.Ok? ==> Launched(next) in r.events)
  {
    hide Launching;
    LaunchingCases(f, turn, next);
    var events := Launching(f, turn, next).events;
    if (f.client.Some? ==> turn.stop.Ok?) && turn.launch.Ok? {
      assert events[|events| - 1] == Launched(next);
    }
  }

  /** The build has succeeded, no change has come since, and nothing is in the way of its client. */
  predicate Relaunches(f: Fields, turn: Turn) {
    && f.build.Some? && turn.buildExit == Ok(Some(true)) && f.changedAt.None? && turn.publish.Ok?
    && (f.client.Some? ==> turn.stop.Ok?) && turn.launch.Ok?
  }

  predicate AllHeard(turn: Turn) {
    forall i :: 0 <= i < |turn.received| ==> Heard(turn.received[i])
  }

  /** A turn begins with its changes, and logs no others. */
  lemma TurnLogsChanges(f: Fields, debounce: nat, turn: Turn)
    ensures multiset(TurnOf(f, debounce, turn).events)[Received] == Changes(Audible(turn.received))
    ensures TurnOf(f, debounce, turn).outcome.Ok? ==> AllHeard(turn) && Audible(turn.received) == turn.received
  {
    hide Receiving, Finishing;
    ChangesAreReceived(f, turn.now, turn.received);
    FinishedBuildEnds(Receiving(f, turn.now, turn.received).fields, turn);
    OnlyChanges(Changes(Audible(turn.received)));
    if AllHeard(turn) {
      AllAudible(turn.received);
    }
  }

  lemma {:induction false} OnlyChanges(n: nat)
    ensures multiset(seq(n, _ => Received))[Received] == n
  {
    if n > 0 {
      OnlyChanges(n - 1);
      assert seq(n, _ => Received) == seq(n - 1, _ => Received) + [Received];
    }
  }

  lemma {:induction false} AllAudible(received: seq<Result<SourceEvent, string>>)
    requires forall i :: 0 <= i < |received| ==> Heard(received[i])
    ensures Audible(received) == received
  {
    if received != [] {
      AllAudible(received[1..]);
    }
  }

  /**
   Unless a report ends the run first, a turn in which the build has finished logs its end; a fresh build gets
   its client.
   */
  lemma TurnEndsBuild(f: Fields, debounce: nat, turn: Turn)
    requires AllHeard(turn) && f.build.Some? && turn.buildExit.Ok? && turn.buildExit.value.Some?
    ensures Ended(f.build.value, turn.buildExit.value.value) in TurnOf(f, debounce, turn).events
    ensures Relaunches(f, turn) && Changes(turn.received) == 0 ==>
              Launched(f.build.value) in TurnOf(f, debounce, turn).events
  {
    hide Receiving, Finishing;
    ChangesAreReceived(f, turn.now, turn.received);
    FinishedBuildEnds(Receiving(f, turn.now, turn.received).fields, turn);
  }

  /**
   With no build on its way, a turn without new changes starts the pending one exactly when the debounce has
   passed.
   */
  lemma TurnStartsBuild(f: Fields, debounce: nat, turn: Turn)
    requires TurnOf(f, debounce, turn).outcome.Ok? && f.build.None? && Changes(turn.received) == 0
    ensures if f.changedAt.Some? && turn.now >= f.changedAt.value + debounce
            then TurnOf(f, debounce, turn) == Phase(f.(changedAt := Option.None, build := Some(f.nextSequence),
                                                       nextSequence := f.nextSequence + 1),
                                                    [Started(f.nextSequence)], DONE)
            else TurnOf(f, debounce, turn) == Phase(f, [], DONE)
  {
    hide Receiving, Finishing;
    ChangesAreReceived(f, turn.now, turn.received);
    FinishedBuildEnds(Receiving(f, turn.now, turn.received).fields, turn);
    assert f.(changedAt := f.changedAt) == f;
    assert seq(0, _ => Received) == [];
  }

  /** A new change only restarts the wait, unless there is none to wait for. */
  lemma TurnWaits(f: Fields, debounce: nat, turn: Turn)
    requires TurnOf(f, debounce, turn).outcome.Ok? && f.build.None? && Changes(turn.received) > 0
    ensures if debounce > 0 then TurnOf(f, debounce, turn).fields == f.(changedAt := Some(turn.now))
            else TurnOf(f, debounce, turn).fields.build == Some(f.nextSequence)
  {
    hide Receiving, Finishing;
    ChangesAreReceived(f, turn.now, turn.received);
    FinishedBuildEnds(Receiving(f, turn.now, turn.received).fields, turn);
  }

  // ---- what a loop of turns means

  function AllChanges(turns: seq<Turn>): nat {
    if turns == [] then 0 else AllChanges(turns[..|turns| - 1]) + Changes(turns[|turns| - 1].received)
  }

  /** However long the loop has run, every change that was reported is in the log once. */
  lemma {:induction false} EveryChangeIsLogged(f: Fields, debounce: nat, turns: seq<Turn>, i: nat)
    requires i <= |turns| && Before(f, debounce, turns, i).Some?
    ensures multiset(Before(f, debounce, turns, i).value.1)[Received] == AllChanges(turns[..i])
  {
    hide TurnOf, Leaves;
    if i > 0 {
      EveryChangeIsLogged(f, debounce, turns, i - 1);
      TurnLogsChanges(Before(f, debounce, turns, i - 1).value.0, debounce, turns[i - 1]);
      assert turns[..i][..i - 1] == turns[..i - 1];
    }
  }

  /** A build that the loop finds finished is in the log as ended. */
  lemma FinishedBuildIsLogged(f: Fields, debounce: nat, turns: seq<Turn>, i: nat)
    requires i < |turns| && Before(f, debounce, turns, i + 1).Some?
    ensures Before(f, debounce, turns, i).Some?
    ensures var g, exit := Before(f, debounce, turns, i).value.0, turns[i].buildExit;
            g.build.Some? && exit.Ok? && exit.value.Some? ==>
              Ended(g.build.value, exit.value.value) in Before(f, debounce, turns, i + 1).value.1
  {
    hide TurnOf, Leaves;
    var g, exit := Before(f, debounce, turns, i).value.0, turns[i].buildExit;
    TurnLogsChanges(g, debounce, turns[i]);
    if g.build.Some? && exit.Ok? && exit.value.Some? {
      TurnEndsBuild(g, debounce, turns[i]);
    }
  }

  /** Once it has been quiet for the debounce, a pending change has started a build. */
  lemma {:induction false} QuietTurnsStartBuild(f: Fields, debounce: nat, turns: seq<Turn>, i: nat)
    requires i <= |turns| && Before(f, debounce, turns, i).Some?
    requires f.build.None? && f.changedAt.Some? && forall j :: 0 <= j < i ==> Changes(turns[j].received) == 0
    ensures var (g, events) := Before(f, debounce, turns, i).value;
            if exists j :: 0 <= j < i && turns[j].now >= f.changedAt.value + debounce
            then Started(f.nextSequence) in events else g == f && events == []
  {
    hide TurnOf, Leaves;
    if i > 0 {
      QuietTurnsStartBuild(f, debounce, turns, i - 1);
      var (g, events) := Before(f, debounce, turns, i - 1).value;
      if exists j :: 0 <= j < i - 1 && turns[j].now >= f.changedAt.value + debounce {
      } else {
        TurnStartsBuild(g, debounce, turns[i - 1]);
      }
    }
  }

  // ---- what a finished build means

  /** The last client gives way, the next one starts, and nothing fails after that. */
  predicate Reloads(turn: Turn, oldClient: Option<nat>, warned: bool) {
    && (oldClient.Some? ==> turn.stop.Ok?) && turn.launch.Ok? && (oldClient.Some? ==> turn.remove.Ok?)
    && (warned || turn.bundles.Ok?)
  }

  /** What a successful reload appends to the log once the build has ended. */
  function Swap(next: nat, previous: Option<nat>): seq<Event> {
    [Published(next)] + (if previous.Some? then [Stopped(previous.value)] else []) + [Launched(next)]
  }

  function Reload(next: nat, previous: Option<nat>): seq<Event> {
    [Ended(next, true)] + Swap(next, previous)
  }

  lemma LaunchingMeans(f: Fields, turn: Turn, next: nat)
    requires f.client.Some? == f.binary.Some?
    ensures var r := Launching(f, turn, next);
            && (r.outcome.Ok? <==> Reloads(turn, f.client, f.warned))
            && (r.outcome.Ok? ==> r.events == Swap(next, f.client) && r.fields.client == r.fields.binary == Some(next))
            && r.fields.build == f.build && r.fields.changedAt == f.changedAt && r.fields.nextSequence == f.nextSequence
            && (f.client.Some? && turn.stop.Ok? && turn.launch.Ok? && turn.remove.Err? ==>
                  r.fields.client == f.client && r.fields.binary.None?)
            && (r.fields.warned <==> f.warned || (r.outcome.Ok? && turn.bundles.value > MAX_QUIET_BUNDLES))
  {
  }

  lemma FinishingMeans(f: Fields, turn: Turn)
    requires f.client.Some? == f.binary.Some?
    ensures var r := Finishing(f, turn);
            var ended := f.build.Some? && turn.buildExit.Ok? && turn.buildExit.value.Some?;
            var current := ended && turn.buildExit.value.value && f.changedAt.None? && turn.publish.Ok?;
            && (r.outcome.Ok? <==>
                  if f.build.None? then true
                  else if turn.buildExit.Err? then false
                  else if !ended then true
                  else if !current then turn.logged.Ok?
                  else Reloads(turn, f.client, f.warned))
            && r.fields.changedAt == f.changedAt && r.fields.nextSequence == f.nextSequence
            && (!ended ==> r.fields == f && r.events == [])
            && (ended && !current ==>
                  && r.fields == f.(build := Option.None)
                  && r.events == [Ended(f.build.value, turn.buildExit.value.value)])
            && (current && r.outcome.Ok? ==>
                  && r.events == Reload(f.build.value, f.client) && r.fields.build.None?
                  && r.fields.client == r.fields.binary == f.build)
            && (current && f.client.Some? && turn.stop.Ok? && turn.launch.Ok? && turn.remove.Err? ==>
                  r.fields.client == f.client && r.fields.binary == r.fields.build == Option.None)
  {
    hide Launching;
    if f.build.Some? {
      LaunchingMeans(f.(build := Option.None), turn, f.build.value);
    }
  }
}

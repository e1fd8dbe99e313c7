/**
 The protocol of a supervised source run, as the order in which changes are received, builds start and end,
 bundles are published and clients are stopped and launched.
 */
module SupervisorLog {
  import opened Prelude

  /** Builds and the clients made from them are identified by the build's sequence number. */
  datatype Event =
    | Received
    | Started(build: nat)
    | Ended(build: nat, success: bool)
    | Published(build: nat)
    | Stopped(client: nat)
    | Launched(client: nat)
    | Exited(client: nat)

  /** `built` has just succeeded with no change pending; `candidate` has been published since. */
  datatype View = View(
    inFlight: Option<nat>, pending: bool, starts: nat, built: Option<nat>, candidate: Option<nat>, running: Option<nat>)

  function Next(v: View, e: Event): View {
    match e
    case Received => v.(pending := true, built := None, candidate := None)
    case Started(n) => v.(inFlight := Some(n), pending := false, starts := v.starts + 1, built := None,
                          candidate := None)
    case Ended(n, success) =>
      v.(inFlight := None, built := if success && !v.pending then Some(n) else None, candidate := None)
    case Published(n) => v.(candidate := Some(n))
    case Stopped(_) => v.(running := None)
    case Launched(n) => v.(running := Some(n), built := None, candidate := None)
    case Exited(_) => v.(running := None)
  }

  predicate Allowed(v: View, e: Event) {
    match e
    case Received => true
    case Started(n) => v.inFlight.None? && n == v.starts + 1
    case Ended(n, _) => v.inFlight == Some(n)
    case Published(n) => v.built == Some(n)
    case Stopped(c) => v.running == Some(c) && v.candidate.Some?
    case Launched(n) => v.running.None? && v.candidate == Some(n)
    case Exited(c) => v.running == Some(c)
  }

  function ViewOf(log: seq<Event>): View {
    if log == [] then View(Option.None, false, 0, Option.None, Option.None, Option.None)
    else Next(ViewOf(log[..|log| - 1]), log[|log| - 1])
  }

  /** Every event was allowed when it happened. */
  predicate History(log: seq<Event>) {
    log != [] ==> History(log[..|log| - 1]) && Allowed(ViewOf(log[..|log| - 1]), log[|log| - 1])
  }

  lemma Appended(log: seq<Event>, e: Event)
    ensures ViewOf(log + [e]) == Next(ViewOf(log), e)
    ensures History(log + [e]) <==> History(log) && Allowed(ViewOf(log), e)
  {
    assert (log + [e])[..|log|] == log;
  }

  lemma {:induction false} EarlierWasAllowed(log: seq<Event>, i: nat)
    requires History(log) && i < |log|
    ensures History(log[..i]) && Allowed(ViewOf(log[..i]), log[i])
    ensures ViewOf(log[..i + 1]) == Next(ViewOf(log[..i]), log[i])
    decreases |log|
  {
    assert log[..i + 1][..i] == log[..i];
    if i < |log| - 1 {
      var before := log[..|log| - 1];
      EarlierWasAllowed(before, i);
      assert before[..i] == log[..i] && before[..i + 1] == log[..i + 1];
    }
  }

  // ---- what such an order means

  /** The build started at `s`, and no change has been received since. */
  predicate CleanSince(log: seq<Event>, s: nat, n: nat) {
    s < |log| && log[s] == Started(n) && forall k :: s < k < |log| ==> log[k] != Received
  }

  /** The build succeeded, and it had been started after the last change received. */
  ghost predicate FreshBuild(log: seq<Event>, n: nat) {
    exists s: nat, e: nat :: CleanSince(log, s, n) && s < e < |log| && log[e] == Ended(n, true)
  }

  lemma StillClean(log: seq<Event>, e: Event, s: nat, n: nat)
    requires CleanSince(log, s, n) && e != Received
    ensures CleanSince(log + [e], s, n)
  {
  }

  lemma {:induction false} ViewIsTruthful(log: seq<Event>)
    requires History(log)
    ensures var v := ViewOf(log);
            && (v.inFlight.Some? && !v.pending ==> exists s: nat :: CleanSince(log, s, v.inFlight.value))
            && (v.built.Some? ==> FreshBuild(log, v.built.value))
            && (v.candidate.Some? ==> FreshBuild(log, v.candidate.value) && Published(v.candidate.value) in log)
  {
    hide CleanSince;
    if log != [] {
      var before, e := log[..|log| - 1], log[|log| - 1];
      var v, w := ViewOf(before), ViewOf(log);
      assert before + [e] == log;
      ViewIsTruthful(before);
      if e.Started? {
        NewlyStarted(before, e.build);
      } else if e != Received {
        if v.inFlight.Some? && !v.pending {
          var s: nat :| CleanSince(before, s, v.inFlight.value);
          StillClean(before, e, s, v.inFlight.value);
          if e == Ended(v.inFlight.value, true) {
            SuccessIsFresh(before, s, e.build);
          }
        }
        if v.built.Some? {
          StaysFresh(before, e, v.built.value);
        }
        if v.candidate.Some? {
          StaysFresh(before, e, v.candidate.value);
        }
      }
    }
  }

  lemma NewlyStarted(log: seq<Event>, n: nat)
    ensures CleanSince(log + [Started(n)], |log|, n)
  {
  }

  lemma SuccessIsFresh(log: seq<Event>, s: nat, n: nat)
    requires CleanSince(log, s, n)
    ensures FreshBuild(log + [Ended(n, true)], n)
  {
    StillClean(log, Ended(n, true), s, n);
    assert (log + [Ended(n, true)])[|log|] == Ended(n, true);
  }

  lemma StaysFresh(log: seq<Event>, e: Event, n: nat)
    requires FreshBuild(log, n) && e != Received
    ensures FreshBuild(log + [e], n)
  {
    var s: nat, k: nat :| CleanSince(log, s, n) && s < k < |log| && log[k] == Ended(n, true);
    StillClean(log, e, s, n);
    assert (log + [e])[k] == Ended(n, true);
  }

  /** A build that is on its way is newer than the running client. */
  lemma {:induction false} NumbersDiffer(log: seq<Event>)
    requires History(log)
    ensures var v := ViewOf(log);
            && (v.inFlight.Some? ==> v.inFlight.value == v.starts)
            && (v.built.Some? ==> v.built.value == v.starts && v.inFlight.None?)
            && (v.candidate.Some? ==> v.candidate.value == v.starts && v.inFlight.None?)
            && (v.running.Some? ==> v.running.value <= v.starts)
            && (v.running.Some? && (v.inFlight.Some? || v.built.Some? || v.candidate.Some?) ==>
              v.running.value < v.starts)
  {
    if log != [] {
      NumbersDiffer(log[..|log| - 1]);
    }
  }

  /** A client is launched only from a successful build started after the last change received. */
  lemma LaunchesAreFresh(log: seq<Event>, i: nat)
    requires History(log) && i < |log| && log[i].Launched?
    ensures FreshBuild(log[..i], log[i].client)
  {
    EarlierWasAllowed(log, i);
    ViewIsTruthful(log[..i]);
  }

  /** A running client is stopped only for a published fresh build: failed and stale builds leave it alone. */
  lemma StopsAreForFreshBuilds(log: seq<Event>, i: nat)
    requires History(log) && i < |log| && log[i].Stopped?
    ensures exists n :: FreshBuild(log[..i], n) && Published(n) in log[..i]
  {
    EarlierWasAllowed(log, i);
    ViewIsTruthful(log[..i]);
  }

  /** A received change is never lost: it is still pending, or a later build has started. */
  lemma {:induction false} ChangesAreNotLost(log: seq<Event>, i: nat)
    requires i < |log| && log[i] == Received
    ensures ViewOf(log).pending || exists j :: i < j < |log| && log[j].Started?
    decreases |log|
  {
    if i < |log| - 1 && log[|log| - 1] != Received && !log[|log| - 1].Started? {
      ChangesAreNotLost(log[..|log| - 1], i);
    }
  }

  lemma {:induction false} StartsOnlyGrow(log: seq<Event>, i: nat)
    requires History(log) && i <= |log|
    ensures ViewOf(log[..i]).starts <= ViewOf(log).starts
    decreases |log|
  {
    if i < |log| {
      var before := log[..|log| - 1];
      StartsOnlyGrow(before, i);
      assert before[..i] == log[..i];
    } else {
      assert log[..i] == log;
    }
  }

  /** Build numbers strictly increase, so no two builds share a bundle directory. */
  lemma SequencesIncrease(log: seq<Event>, i: nat, j: nat)
    requires History(log) && i < j < |log| && log[i].Started? && log[j].Started?
    ensures log[i].build < log[j].build
  {
    EarlierWasAllowed(log, i);
    EarlierWasAllowed(log, j);
    StartsOnlyGrow(log[..j], i + 1);
    assert log[..j][..i + 1] == log[..i + 1];
  }

  lemma {:induction false} StaysInFlight(log: seq<Event>, i: nat, m: nat)
    requires History(log) && i < m <= |log| && log[i].Started?
    requires forall k :: i < k < m ==> !(log[k].Ended? && log[k].build == log[i].build)
    ensures ViewOf(log[..m]).inFlight == Some(log[i].build)
    decreases m
  {
    EarlierWasAllowed(log, m - 1);
    if i < m - 1 {
      StaysInFlight(log, i, m - 1);
    }
  }

  /** A build starts only when the one before it has ended. */
  lemma OneBuildAtATime(log: seq<Event>, i: nat, j: nat)
    requires History(log) && i < j < |log| && log[i].Started? && log[j].Started?
    ensures exists k :: i < k < j && log[k].Ended? && log[k].build == log[i].build
  {
    if !(exists k :: i < k < j && log[k].Ended? && log[k].build == log[i].build) {
      StaysInFlight(log, i, j);
      EarlierWasAllowed(log, j);
    }
  }

  predicate Gone(e: Event, client: nat) {
    e == Stopped(client) || e == Exited(client)
  }

  lemma {:induction false} StaysRunning(log: seq<Event>, i: nat, m: nat)
    requires History(log) && i < m <= |log| && log[i].Launched?
    requires forall k :: i < k < m ==> !Gone(log[k], log[i].client)
    ensures ViewOf(log[..m]).running == Some(log[i].client)
    decreases m
  {
    EarlierWasAllowed(log, m - 1);
    if i < m - 1 {
      StaysRunning(log, i, m - 1);
      assert !Gone(log[m - 1], log[i].client);
    }
  }

  /** A client is launched only when the one before it is gone. */
  lemma OneClientAtATime(log: seq<Event>, i: nat, j: nat)
    requires History(log) && i < j < |log| && log[i].Launched? && log[j].Launched?
    ensures exists k :: i < k < j && Gone(log[k], log[i].client)
  {
    if !(exists k :: i < k < j && Gone(log[k], log[i].client)) {
      StaysRunning(log, i, j);
      EarlierWasAllowed(log, j);
    }
  }
}

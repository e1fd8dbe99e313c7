/**
 The forked guardian process, imperatively: its slot table is updated in place, its waits
 are polling loops, and its main loop answers requests until the channel ends.
 */
module GuardianChild {
  import opened Prelude
  import opened GuardianSlots

  const TERM_POLLS := 25
  const KILL_POLLS := 100

  datatype Signal = Term(group: int) | Kill(group: int)

  /**
   The operating system as the guardian sees it. Time advances by one tick per poll sleep.
   A process group exists from before the guardian asks until its last tick, and then
   never again; a group that is not mapped is already gone, and an `Unkillable` one never
   goes away.
   */
  datatype Fate = GoneFrom(tick: nat) | Unkillable

  class Kernel {
    const fates: map<int, Fate>
    var now: nat
    var signals: seq<Signal>

    constructor (fates: map<int, Fate>)
      ensures this.fates == fates && now == 0 && signals == []
    {
      this.fates := fates;
      now := 0;
      signals := [];
    }

    predicate Gone(group: int)
      reads this`now
    {
      GoneAt(group, now)
    }

    predicate GoneAt(group: int, tick: nat) {
      group !in fates || (fates[group].GoneFrom? && fates[group].tick <= tick)
    }

    function Existing(): (groups: set<int>)
      reads this`now
      ensures forall g :: g in groups <==> !Gone(g)
    {
      ExistingAt(now)
    }

    function ExistingAt(tick: nat): (groups: set<int>)
      ensures forall g :: g in groups <==> !GoneAt(g, tick)
    {
      set g | g in fates && !GoneAt(g, tick)
    }

    method SleepPoll()
      modifies this`now
      ensures now == old(now) + 1
    {
      now := now + 1;
    }

    method SendSignal(signal: Signal)
      modifies this`signals
      ensures signals == old(signals) + [signal]
    {
      signals := signals + [signal];
    }
  }

  /** Waits at most `polls` ticks and reports whether the group is gone when it stops. */
  method WaitGroupGone(kernel: Kernel, group: int, polls: nat) returns (gone: bool)
    modifies kernel`now
    ensures gone == kernel.Gone(group)
    ensures old(kernel.now) <= kernel.now <= old(kernel.now) + polls
    ensures !gone ==> kernel.now == old(kernel.now) + polls
    ensures forall t: nat :: old(kernel.now) <= t < kernel.now ==> !kernel.GoneAt(group, t)
  {
    for i := 0 to polls
      invariant kernel.now == old(kernel.now) + i
      invariant forall t: nat :: old(kernel.now) <= t < kernel.now ==> !kernel.GoneAt(group, t)
    {
      if kernel.Gone(group) {
        return true;
      }
      kernel.SleepPoll();
    }
    gone := kernel.Gone(group);
  }

  /** The ticks a forced termination may take, and the signals it sends when it begins at `start`. */
  const PATIENCE := TERM_POLLS + KILL_POLLS

  function SignalsTo(kernel: Kernel, group: int, start: nat): seq<Signal> {
    if group <= 1 || kernel.GoneAt(group, start) then []
    else if kernel.GoneAt(group, start + TERM_POLLS) then [Term(group)]
    else [Term(group), Kill(group)]
  }

  /**
   SIGTERM, then SIGKILL if 25 polls were not enough; never more than 125 polls, and never
   longer than the group lives.
   */
  method TerminateGroup(kernel: Kernel, group: int) returns (gone: bool)
    modifies kernel
    ensures gone == (group <= 1 || kernel.Gone(group))
    ensures gone == (group <= 1 || kernel.GoneAt(group, old(kernel.now) + PATIENCE))
    ensures old(kernel.now) <= kernel.now <= old(kernel.now) + PATIENCE
    ensures !gone ==> kernel.now == old(kernel.now) + PATIENCE
    ensures forall t: nat :: old(kernel.now) <= t < kernel.now ==> !kernel.GoneAt(group, t)
    ensures kernel.signals == old(kernel.signals) + SignalsTo(kernel, group, old(kernel.now))
  {
    if group <= 1 || kernel.Gone(group) {
      return true;
    }
    kernel.SendSignal(Term(group));
    gone := WaitGroupGone(kernel, group, TERM_POLLS);
    if gone {
      return;
    }
    kernel.SendSignal(Kill(group));
    gone := WaitGroupGone(kernel, group, KILL_POLLS);
  }

  method RegisterGroup(groups: array<int>, group: int) returns (reply: Reply)
    modifies groups
    ensures (groups[..], reply) == RegisterIn(old(groups[..]), group)
  {
    var i := Find(groups, 0);
    if i < groups.Length {
      groups[i] := group;
      return Okay;
    }
    return Busy;
  }

  method CompleteGroup(kernel: Kernel, groups: array<int>, group: int) returns (reply: Reply)
    modifies kernel, groups
    ensures var gone := group <= 1 || kernel.GoneAt(group, old(kernel.now) + PATIENCE);
            (groups[..], reply) == CompleteIn(old(groups[..]), group, gone)
    ensures reply == Okay && group > 1 ==> kernel.Gone(group)
    ensures old(kernel.now) <= kernel.now <= old(kernel.now) + PATIENCE
    ensures kernel.signals == old(kernel.signals) +
            if group in old(groups[..]) then SignalsTo(kernel, group, old(kernel.now)) else []
  {
    var i := Find(groups, group);
    if i == groups.Length {
      return Invalid;
    }
    var gone := TerminateGroup(kernel, groups[i]);
    if gone {
      groups[i] := 0;
      return Okay;
    }
    return Busy;
  }

  method Find(groups: array<int>, x: int) returns (i: nat)
    ensures FirstIndex(groups[..], x) == if i < groups.Length then Some(i) else None
    ensures i <= groups.Length
  {
    i := 0;
    while i < groups.Length && groups[i] != x
      invariant i <= groups.Length
      invariant x !in groups[..i]
    {
      i := i + 1;
    }
    if i < groups.Length {
      assert groups[..i] == groups[..][..i];
      FirstIndexIs(groups[..], x, i);
    } else {
      assert groups[..] == groups[..i];
    }
  }

  /** The signals of terminating the groups of a table one after the other, each from its own tick on. */
  function SweepSignals(kernel: Kernel, slots: seq<int>, starts: seq<nat>): seq<Signal>
    requires |slots| == |starts|
  {
    if slots == [] then []
    else
      var n := |slots| - 1;
      SweepSignals(kernel, slots[..n], starts[..n]) + SignalsTo(kernel, slots[n], starts[n])
  }

  /** The group is there to the end of a termination that begins at this tick. */
  predicate Outlasts(kernel: Kernel, group: int, start: nat) {
    group > 1 && !kernel.GoneAt(group, start + PATIENCE)
  }

  /** The terminations of a sweep begin at `from`, one after the other, each when the one before is over. */
  ghost predicate OneByOne(from: nat, starts: seq<nat>, now: nat) {
    && (forall i :: 0 <= i < |starts| ==> from <= starts[i] <= now)
    && (forall i :: 0 <= i < |starts| - 1 ==> starts[i + 1] <= starts[i] + PATIENCE)
    && (if starts == [] then now == from else starts[0] == from && now <= starts[|starts| - 1] + PATIENCE)
  }

  /**
   Terminates every group of the table; a slot stays occupied exactly if its group outlasts its own
   termination, and the sweep is clean exactly if none does.
   */
  method CleanupAllOnce(kernel: Kernel, groups: array<int>) returns (clean: bool, ghost starts: seq<nat>)
    requires WellFormed(groups[..])
    modifies kernel, groups
    ensures old(kernel.now) <= kernel.now
    ensures |starts| == groups.Length && OneByOne(old(kernel.now), starts, kernel.now)
    ensures forall i :: 0 <= i < groups.Length ==>
              groups[i] == if Outlasts(kernel, old(groups[i]), starts[i]) then old(groups[i]) else 0
    ensures clean <==> forall i :: 0 <= i < groups.Length ==> !Outlasts(kernel, old(groups[i]), starts[i])
    ensures kernel.signals == old(kernel.signals) + SweepSignals(kernel, old(groups[..]), starts)
    ensures Swept(old(groups[..]), groups[..], kernel.ExistingAt(old(kernel.now) + PATIENCE), kernel.Existing())
    ensures clean <==> AllFree(groups[..])
    ensures clean ==> forall g :: g > 1 && g in old(groups[..]) ==> kernel.Gone(g)
  {
    hide SweptTo, SweepSignals, SignalsTo, OneByOne, Outlasts, AllFree, Swept;
    clean, starts := true, [];
    ghost var before := groups[..];
    NothingSwept(kernel, before);
    for i := 0 to groups.Length
      invariant WellFormed(groups[..]) && old(kernel.now) <= kernel.now && |starts| == i
      invariant SweptTo(kernel, before, groups[..], starts, old(kernel.now), kernel.now)
      invariant kernel.signals == old(kernel.signals) + SweepSignals(kernel, before[..i], starts)
      invariant clean <==> AllFree(groups[..][..i])
    {
      ghost var slots, start := groups[..], kernel.now;
      var gone := SweepSlot(kernel, groups, i);
      if !gone {
        clean := false;
      }
      SweptOneMore(kernel, before, slots, starts, old(kernel.now), start, kernel.now, gone);
      OneMoreSignalled(kernel, before, starts, start);
      starts := starts + [start];
    }
    assert before[..groups.Length] == before && groups[..][..groups.Length] == groups[..];
    SweptAll(kernel, before, groups[..], starts, old(kernel.now));
  }

  /** The first slots have been swept, each with its own beginning, and the others are as before. */
  ghost predicate SweptTo(kernel: Kernel, before: seq<int>, slots: seq<int>, starts: seq<nat>, from: nat, now: nat) {
    && |starts| <= |slots| == |before| && OneByOne(from, starts, now)
    && (forall j :: |starts| <= j < |slots| ==> slots[j] == before[j])
    && (forall j :: 0 <= j < |starts| ==>
          && slots[j] == (if Outlasts(kernel, before[j], starts[j]) then before[j] else 0)
          && (slots[j] == 0 && before[j] > 1 ==> kernel.GoneAt(before[j], now)))
  }

  lemma NothingSwept(kernel: Kernel, before: seq<int>)
    ensures SweptTo(kernel, before, before, [], kernel.now, kernel.now)
    ensures SweepSignals(kernel, before[..0], []) == [] && AllFree(before[..0])
  {
  }

  lemma SweptOneMore(kernel: Kernel, before: seq<int>, slots: seq<int>, starts: seq<nat>, from: nat, start: nat,
                     now: nat, gone: bool)
    requires SweptTo(kernel, before, slots, starts, from, start) && |starts| < |slots|
    requires start <= now <= start + PATIENCE && WellFormed(slots)
    requires gone == !Outlasts(kernel, slots[|starts|], start)
    requires gone && slots[|starts|] > 1 ==> kernel.GoneAt(slots[|starts|], now)
    ensures var i := |starts|;
            var slots' := slots[i := if gone then 0 else slots[i]];
            && SweptTo(kernel, before, slots', starts + [start], from, now)
            && slots[i] == before[i] && (AllFree(slots'[..i + 1]) <==> gone && AllFree(slots[..i]))
  {
    hide Outlasts, OneByOne;
    var i := |starts|;
    var slots' := slots[i := if gone then 0 else slots[i]];
    assert slots'[..i + 1] == slots[..i] + [slots'[i]] by {
      assert slots'[..i] == slots[..i];
    }
    OneMoreStart(from, starts, start, now);
    if Outlasts(kernel, slots[i], start) {
      OnlyGroupsOutlast(kernel, slots[i], start);
    }
    if AllFree(slots'[..i + 1]) {
      forall j | 0 <= j < i ensures slots[..i][j] == 0 {
        assert slots'[..i + 1][j] == 0;
      }
      assert slots'[..i + 1][i] == 0;
    }
  }

  lemma OnlyGroupsOutlast(kernel: Kernel, group: int, start: nat)
    requires Outlasts(kernel, group, start)
    ensures group > 1
  {
  }

  lemma OneMoreStart(from: nat, starts: seq<nat>, start: nat, now: nat)
    requires OneByOne(from, starts, start) && start <= now <= start + PATIENCE
    ensures OneByOne(from, starts + [start], now)
  {
  }

  lemma OneMoreSignalled(kernel: Kernel, before: seq<int>, starts: seq<nat>, start: nat)
    requires |starts| < |before|
    ensures SweepSignals(kernel, before[..|starts| + 1], starts + [start])
         == SweepSignals(kernel, before[..|starts|], starts) + SignalsTo(kernel, before[|starts|], start)
  {
    assert before[..|starts| + 1][..|starts|] == before[..|starts|] && (starts + [start])[..|starts|] == starts;
  }

  lemma SweptAll(kernel: Kernel, before: seq<int>, slots: seq<int>, starts: seq<nat>, from: nat)
    requires SweptTo(kernel, before, slots, starts, from, kernel.now) && |starts| == |slots| && WellFormed(before)
    ensures OneByOne(from, starts, kernel.now)
    ensures forall i :: 0 <= i < |slots| ==> slots[i] == if Outlasts(kernel, before[i], starts[i]) then before[i] else 0
    ensures AllFree(slots) <==> forall i :: 0 <= i < |slots| ==> !Outlasts(kernel, before[i], starts[i])
    ensures Swept(before, slots, kernel.ExistingAt(from + PATIENCE), kernel.Existing())
    ensures AllFree(slots) ==> forall g :: g > 1 && g in before ==> kernel.Gone(g)
  {
    if AllFree(slots) {
      forall g | g > 1 && g in before ensures kernel.Gone(g) {
        var j :| 0 <= j < |before| && before[j] == g;
        assert slots[j] == 0;
      }
    }
  }

  /** One slot of a sweep. */
  method SweepSlot(kernel: Kernel, groups: array<int>, i: nat) returns (gone: bool)
    requires i < groups.Length && WellFormed(groups[..])
    modifies kernel, groups
    ensures old(kernel.now) <= kernel.now <= old(kernel.now) + PATIENCE
    ensures gone == !Outlasts(kernel, old(groups[i]), old(kernel.now))
    ensures groups[..] == old(groups[..])[i := if gone then 0 else old(groups[i])]
    ensures gone && old(groups[i]) > 1 ==> kernel.Gone(old(groups[i]))
    ensures kernel.signals == old(kernel.signals) + SignalsTo(kernel, old(groups[i]), old(kernel.now))
  {
    gone := true;
    if groups[i] > 1 {
      gone := TerminateGroup(kernel, groups[i]);
      if gone {
        groups[i] := 0;
      }
    }
  }

  /**
   Sweeps again and again until one sweep finds every group gone. A sweep stops at its first
   survivor, so the loop may end only after a sweep that reached the end of the table. The
   guardian sweeps for as long as a group lives, and keeps the lock meanwhile; it is watched
   for `watched` ticks here, and `finished` tells whether it has left the loop by then.
   */
  method CleanupAllUntilGone(kernel: Kernel, groups: array<int>, watched: nat) returns (finished: bool)
    modifies kernel
    ensures old(kernel.now) <= kernel.now
    ensures finished <==> forall i :: 0 <= i < groups.Length && groups[i] > 1 ==> kernel.Gone(groups[i])
    ensures !finished ==> kernel.now >= old(kernel.now) + watched
    ensures (exists i :: 0 <= i < groups.Length && groups[i] > 1 && Immortal(kernel, groups[i])) ==> !finished
    ensures (forall i :: 0 <= i < groups.Length && groups[i] > 1 ==>
              kernel.GoneAt(groups[i], old(kernel.now) + watched)) ==> finished
    ensures old(kernel.signals) <= kernel.signals
    ensures finished ==> EndsWithSweep(kernel, groups[..], kernel.signals[|old(kernel.signals)|..])
    ensures !finished ==> SurvivesSignals(kernel, groups[..], kernel.signals[|old(kernel.signals)|..])
  {
    var end := kernel.now + watched;
    var survivor := SweepUntilSurvivor(kernel, groups);
    while survivor && kernel.now < end
      invariant old(kernel.now) <= kernel.now && old(kernel.signals) <= kernel.signals
      invariant survivor <==> exists i :: 0 <= i < groups.Length && groups[i] > 1 && !kernel.Gone(groups[i])
      invariant !survivor ==> EndsWithSweep(kernel, groups[..], kernel.signals[|old(kernel.signals)|..])
      invariant survivor ==> SurvivesSignals(kernel, groups[..], kernel.signals[|old(kernel.signals)|..])
      decreases end - kernel.now
    {
      hide EndsWithSweep, SurvivesSignals;
      ghost var earlier := kernel.signals;
      kernel.SleepPoll();
      survivor := SweepUntilSurvivor(kernel, groups);
      LaterSignalsCount(kernel, groups[..], old(kernel.signals), earlier);
    }
    finished := !survivor;
  }

  /** These signals end with those of a sweep over the whole table. */
  ghost predicate EndsWithSweep(kernel: Kernel, slots: seq<int>, sent: seq<Signal>) {
    exists starts :: |starts| == |slots| && EndsWith(sent, SweepSignals(kernel, slots, starts))
  }

  /** A group of the table is still there after both its signals, the last ones sent. */
  ghost predicate SurvivesSignals(kernel: Kernel, slots: seq<int>, sent: seq<Signal>)
    reads kernel`now
  {
    exists i :: 0 <= i < |slots| && slots[i] > 1 && !kernel.Gone(slots[i])
                && EndsWith(sent, [Term(slots[i]), Kill(slots[i])])
  }

  predicate EndsWith(s: seq<Signal>, end: seq<Signal>) {
    |end| <= |s| && s[|s| - |end|..] == end
  }

  lemma LaterSignalsCount(kernel: Kernel, slots: seq<int>, start: seq<Signal>, earlier: seq<Signal>)
    requires start <= earlier <= kernel.signals
    ensures EndsWithSweep(kernel, slots, kernel.signals[|earlier|..]) ==>
              EndsWithSweep(kernel, slots, kernel.signals[|start|..])
    ensures SurvivesSignals(kernel, slots, kernel.signals[|earlier|..]) ==>
              SurvivesSignals(kernel, slots, kernel.signals[|start|..])
  {
    forall end | EndsWith(kernel.signals[|earlier|..], end) ensures EndsWith(kernel.signals[|start|..], end) {
    }
  }

  /** The short-circuiting `any`: true as soon as one group survives its termination. */
  method SweepUntilSurvivor(kernel: Kernel, groups: array<int>) returns (survivor: bool)
    modifies kernel
    ensures old(kernel.now) <= kernel.now
    ensures survivor <==> exists i :: 0 <= i < groups.Length && groups[i] > 1 && !kernel.Gone(groups[i])
    ensures old(kernel.signals) <= kernel.signals
    ensures !survivor ==> EndsWithSweep(kernel, groups[..], kernel.signals[|old(kernel.signals)|..])
    ensures survivor ==> SurvivesSignals(kernel, groups[..], kernel.signals[|old(kernel.signals)|..])
  {
    ghost var starts: seq<nat> := [];
    for i := 0 to groups.Length
      invariant old(kernel.now) <= kernel.now && |starts| == i
      invariant forall j :: 0 <= j < i && groups[j] > 1 ==> kernel.Gone(groups[j])
      invariant kernel.signals == old(kernel.signals) + SweepSignals(kernel, groups[..i], starts)
    {
      ghost var start, sent := kernel.now, kernel.signals;
      assert groups[..i + 1][..i] == groups[..i] && (starts + [start])[..i] == starts;
      starts := starts + [start];
      if groups[i] > 1 {
        var gone := TerminateGroup(kernel, groups[i]);
        if !gone {
          SurvivorIsSignalled(kernel, groups[..], i, old(kernel.signals), sent);
          return true;
        }
      }
    }
    assert groups[..groups.Length] == groups[..];
    return false;
  }

  lemma SurvivorIsSignalled(kernel: Kernel, slots: seq<int>, i: nat, start: seq<Signal>, sent: seq<Signal>)
    requires i < |slots| && slots[i] > 1 && !kernel.Gone(slots[i])
    requires start <= sent && kernel.signals == sent + [Term(slots[i]), Kill(slots[i])]
    ensures SurvivesSignals(kernel, slots, kernel.signals[|start|..])
  {
  }

  predicate Immortal(kernel: Kernel, group: int) {
    group in kernel.fates && kernel.fates[group].Unkillable?
  }

  /** How the request stream ends: the peer closed the channel, or a read failed. */
  datatype ChannelEnd = EndOfFile | ReadError

  const EXIT_CLEAN := 0
  const EXIT_STARTUP_WRITE := 122
  const EXIT_READ_ERROR := 123

  /** The signals one request leads to. */
  ghost predicate Signals(kernel: Kernel, slots: seq<int>, request: Request, start: nat, sent: seq<Signal>) {
    match request
    case Complete(group) => sent == if group in slots then SignalsTo(kernel, group, start) else []
    case Release => exists starts :: |starts| == |slots| && sent == SweepSignals(kernel, slots, starts)
    case _ => sent == []
  }

  /** Handles one request against the in-place table. */
  method Serve(kernel: Kernel, groups: array<int>, request: Request) returns (reply: Reply, exits: bool)
    requires WellFormed(groups[..])
    modifies kernel, groups
    ensures WellFormed(groups[..]) && old(kernel.now) <= kernel.now
    ensures Serves(old(groups[..]), request, kernel.ExistingAt(old(kernel.now) + PATIENCE), kernel.Existing(),
                   Served(groups[..], reply, exits))
    ensures old(kernel.signals) <= kernel.signals
    ensures Signals(kernel, old(groups[..]), request, old(kernel.now), kernel.signals[|old(kernel.signals)|..])
  {
    exits := false;
    ghost var before, outlasting := groups[..], kernel.ExistingAt(kernel.now + PATIENCE);
    match request {
      case Register(group) =>
        if group > 1 {
          reply := RegisterGroup(groups, group);
        } else {
          reply := Invalid;
        }
      case Complete(group) =>
        reply := CompleteGroup(kernel, groups, group);
      case Release =>
        var clean, starts := CleanupAllOnce(kernel, groups);
        if clean {
          reply, exits := Okay, true;
        } else {
          reply := Busy;
        }
      case Unknown =>
        reply := Invalid;
    }
    assert Serves(before, request, outlasting, kernel.Existing(), Served(groups[..], reply, exits));
    ServingKeepsLiveGroups(before, request, outlasting, kernel.Existing(), Served(groups[..], reply, exits), 0);
  }

  /**
   The guardian's whole life after the fork. `requests` are the complete requests that arrive
   before the channel ends, and the first `writable` bytes it writes get through. Whatever way
   it leaves once it has announced itself, every group it had accepted is gone by then, so the
   lock it carries cannot be let go while one of them survives; and it is still there after
   `watched` ticks of its last cleanup only because one of them is.
   */
  method Run(kernel: Kernel, requests: seq<Request>, end: ChannelEnd, writable: nat, watched: nat)
    returns (exit: Option<int>, replies: seq<Reply>, ghost trace: seq<Observed>)
    modifies kernel
    ensures |replies| <= |requests|
    ensures exit.Some? <==> AcceptedGone(kernel, requests, replies)
    ensures exit.None? ==> kernel.now >= old(kernel.now) + watched
    ensures Explains(trace, requests, replies)
    ensures |replies| < |requests| ==> |replies| >= writable || Acknowledged(requests, replies)
    ensures exit == Some(EXIT_STARTUP_WRITE) <==> writable == 0
    ensures exit == Some(EXIT_READ_ERROR) <==>
              exit.Some? && writable > |replies| && end.ReadError? && |replies| == |requests|
              && !Acknowledged(requests, replies)
    ensures writable > 0 && !Acknowledged(requests, replies) ==>
              && old(kernel.signals) <= kernel.signals
              && var sent := kernel.signals[|old(kernel.signals)|..];
                 if exit.Some? then EndsWithSweep(kernel, LastTable(trace), sent)
                 else SurvivesSignals(kernel, LastTable(trace), sent)
    ensures exit in {None, Some(EXIT_CLEAN), Some(EXIT_STARTUP_WRITE), Some(EXIT_READ_ERROR)}
  {
    hide EndsWithSweep, SurvivesSignals, Serves, Accounted, Immortal;
    replies, trace := [], [];
    if writable == 0 {
      return Some(EXIT_STARTUP_WRITE), [], [];
    }
    var groups := new int[SLOT_COUNT](_ => 0);
    assert groups[..] == EmptySlots();
    NothingAccounted(kernel, groups[..], requests);
    while |replies| < |requests|
      invariant |replies| <= |requests| && |replies| < writable
      invariant old(kernel.now) <= kernel.now && old(kernel.signals) <= kernel.signals
      invariant fresh(groups)
      invariant Sound(kernel, groups[..], requests, replies, trace)
      invariant !Acknowledged(requests, replies)
      decreases |requests| - |replies|
    {
      var reply, exits, met := ServeNext(kernel, groups, requests, replies, trace);
      replies, trace := replies + [reply], trace + [met];
      if exits {
        return Some(EXIT_CLEAN), replies, trace;
      }
      if |replies| >= writable {
        break;
      }
    }
    ghost var served, before := kernel.now, kernel.signals;
    var finished := CleanupAllUntilGone(kernel, groups, watched);
    StaysAccounted(kernel, served, kernel.now, groups[..], requests, replies);
    LaterSignalsCount(kernel, groups[..], old(kernel.signals), before);
    CleanExactlyWhenGone(kernel, groups[..], requests, replies);
    exit :=
      if !finished then None
      else Some(if end.ReadError? && |replies| < writable then EXIT_READ_ERROR else EXIT_CLEAN);
  }

  /** One turn of the request loop. */
  method ServeNext(kernel: Kernel, groups: array<int>, requests: seq<Request>,
                   replies: seq<Reply>, ghost trace: seq<Observed>)
    returns (reply: Reply, exits: bool, ghost met: Observed)
    requires |replies| < |requests|
    requires Sound(kernel, groups[..], requests, replies, trace)
    modifies kernel, groups
    ensures Sound(kernel, groups[..], requests, replies + [reply], trace + [met])
    ensures exits <==> Acknowledged(requests, replies + [reply])
    ensures exits ==> AcceptedGone(kernel, requests, replies + [reply])
    ensures old(kernel.now) <= kernel.now && old(kernel.signals) <= kernel.signals
  {
    ghost var before, outlasting := groups[..], kernel.ExistingAt(kernel.now + PATIENCE);
    reply, exits := Serve(kernel, groups, requests[|replies|]);
    ghost var out := Served(groups[..], reply, exits);
    met := Observed(outlasting, kernel.Existing(), out);
    AccountStep(kernel, before, outlasting, out, requests, replies);
    AcceptedStep(before, outlasting, met.existing, out, requests, replies);
    ExplainsNext(trace, requests, replies, met);
  }

  /** The state of the request loop. */
  ghost predicate Sound(kernel: Kernel, slots: seq<int>, requests: seq<Request>, replies: seq<Reply>,
                        trace: seq<Observed>)
    reads kernel`now
  {
    && WellFormed(slots)
    && |replies| <= |requests|
    && (forall i :: 0 <= i < |slots| && slots[i] > 1 ==> Accepted(requests, replies, slots[i]))
    && Accounted(kernel, kernel.now, slots, requests, replies)
    && Explains(trace, requests, replies)
    && LastTable(trace) == slots
  }

  predicate Accepted(requests: seq<Request>, replies: seq<Reply>, group: int)
    requires |replies| <= |requests|
  {
    exists i :: 0 <= i < |replies| && requests[i] == Register(group) && replies[i] == Okay
  }

  /** Every group whose registration was accepted is gone. */
  ghost predicate AcceptedGone(kernel: Kernel, requests: seq<Request>, replies: seq<Reply>)
    requires |replies| <= |requests|
    reads kernel`now
  {
    forall i :: 0 <= i < |replies| && requests[i].Register? && replies[i] == Okay ==>
      kernel.Gone(requests[i].group)
  }

  /** What one request met and led to. */
  datatype Observed = Observed(outlasting: set<int>, existing: set<int>, out: Served)

  ghost function LastTable(trace: seq<Observed>): seq<int> {
    if trace == [] then EmptySlots() else trace[|trace| - 1].out.slots
  }

  /** The replies are those of the shared request semantics, one table after another from the empty one. */
  ghost predicate Explains(trace: seq<Observed>, requests: seq<Request>, replies: seq<Reply>) {
    && |trace| == |replies| <= |requests|
    && (trace == [] ||
        var n := |trace| - 1;
        && Explains(trace[..n], requests, replies[..n])
        && trace[n].out.reply == replies[n]
        && Serves(LastTable(trace[..n]), requests[n], trace[n].outlasting, trace[n].existing, trace[n].out))
  }

  lemma ExplainsNext(trace: seq<Observed>, requests: seq<Request>, replies: seq<Reply>, next: Observed)
    requires Explains(trace, requests, replies) && |replies| < |requests|
    requires Serves(LastTable(trace), requests[|replies|], next.outlasting, next.existing, next.out)
    ensures Explains(trace + [next], requests, replies + [next.out.reply])
    ensures LastTable(trace + [next]) == next.out.slots
  {
    assert (trace + [next])[..|trace|] == trace;
    assert (replies + [next.out.reply])[..|replies|] == replies;
  }

  /** The last request was a release that was granted. */
  ghost predicate Acknowledged(requests: seq<Request>, replies: seq<Reply>)
    requires |replies| <= |requests|
  {
    replies != [] && requests[|replies| - 1].Release? && replies[|replies| - 1] == Okay
  }

  /** Every group whose registration was accepted is gone or still holds a slot. */
  ghost predicate Accounted(kernel: Kernel, now: nat, slots: seq<int>, requests: seq<Request>, replies: seq<Reply>)
    requires |replies| <= |requests|
  {
    forall i :: 0 <= i < |replies| && requests[i].Register? && replies[i] == Okay ==>
      kernel.GoneAt(requests[i].group, now) || (requests[i].group > 1 && requests[i].group in slots)
  }

  lemma NothingAccounted(kernel: Kernel, slots: seq<int>, requests: seq<Request>)
    ensures Accounted(kernel, kernel.now, slots, requests, [])
  {
  }

  lemma StaysAccounted(kernel: Kernel, earlier: nat, now: nat, slots: seq<int>, requests: seq<Request>,
                       replies: seq<Reply>)
    requires |replies| <= |requests| && Accounted(kernel, earlier, slots, requests, replies) && earlier <= now
    ensures Accounted(kernel, now, slots, requests, replies)
  {
  }

  lemma CleanExactlyWhenGone(kernel: Kernel, slots: seq<int>, requests: seq<Request>, replies: seq<Reply>)
    requires |replies| <= |requests| && Accounted(kernel, kernel.now, slots, requests, replies)
    requires forall i :: 0 <= i < |slots| && slots[i] > 1 ==> Accepted(requests, replies, slots[i])
    ensures (forall i :: 0 <= i < |slots| && slots[i] > 1 ==> kernel.Gone(slots[i])) <==>
              AcceptedGone(kernel, requests, replies)
  {
    forall i | (forall j :: 0 <= j < |slots| && slots[j] > 1 ==> kernel.Gone(slots[j]))
               && 0 <= i < |replies| && requests[i].Register? && replies[i] == Okay
      ensures kernel.Gone(requests[i].group)
    {
      if requests[i].group > 1 && requests[i].group in slots {
        var j :| 0 <= j < |slots| && slots[j] == requests[i].group;
      }
    }
  }

  lemma AcceptedStep(before: seq<int>, outlasting: set<int>, existing: set<int>, out: Served, requests: seq<Request>,
                     replies: seq<Reply>)
    requires |replies| < |requests| && WellFormed(before)
    requires forall i :: 0 <= i < |before| && before[i] > 1 ==> Accepted(requests, replies, before[i])
    requires Serves(before, requests[|replies|], outlasting, existing, out)
    ensures forall i :: 0 <= i < |out.slots| && out.slots[i] > 1 ==>
              Accepted(requests, replies + [out.reply], out.slots[i])
  {
    var n, replies' := |replies|, replies + [out.reply];
    forall i | 0 <= i < |out.slots| && out.slots[i] > 1 ensures Accepted(requests, replies', out.slots[i]) {
      if out.slots[i] in before {
        var j :| 0 <= j < |before| && before[j] == out.slots[i];
        var k :| 0 <= k < |replies| && requests[k] == Register(before[j]) && replies[k] == Okay;
        assert replies'[k] == Okay;
      } else {
        assert requests[n] == Register(out.slots[i]) && replies'[n] == Okay;
      }
    }
  }

  lemma AccountStep(kernel: Kernel, before: seq<int>, outlasting: set<int>, out: Served, requests: seq<Request>,
                    replies: seq<Reply>)
    requires |replies| < |requests| && WellFormed(before)
    requires Accounted(kernel, kernel.now, before, requests, replies)
    requires Serves(before, requests[|replies|], outlasting, kernel.Existing(), out)
    ensures Accounted(kernel, kernel.now, out.slots, requests, replies + [out.reply])
    ensures out.exits ==> AcceptedGone(kernel, requests, replies + [out.reply])
    ensures out.exits <==> Acknowledged(requests, replies + [out.reply])
  {
    var replies' := replies + [out.reply];
    forall i | 0 <= i <= |replies| && requests[i].Register? && replies'[i] == Okay
      ensures kernel.Gone(requests[i].group) || (!out.exits && requests[i].group > 1 && requests[i].group in out.slots)
    {
      ServingKeepsLiveGroups(before, requests[|replies|], outlasting, kernel.Existing(), out, requests[i].group);
    }
  }
}

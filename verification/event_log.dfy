/**
 The per-run append-only event log as values: two tables, one batch transaction, and the
 invariant that every batch keeps.
 */
module EventLog {
  import opened Prelude
  import opened AgentModel
  import opened Tracker

  datatype RunRow = RunRow(provider: Provider, nextSequence: int, latest: Snapshot)

  /** `runs` is keyed by run; `events` by run and sequence. */
  datatype Db = Db(runs: map<RunId, RunRow>, events: map<(RunId, int), Update>)

  datatype Error =
    | CrossRun(expected: RunId, received: RunId)
    | ProviderMismatch(expectedProvider: Provider, receivedProvider: Provider)
    | ContextMismatch(run: RunId)
    | StaleTracker(persisted: Option<u64>, tracker: Option<u64>)
    | SequenceExhausted(run: RunId)
    | TrackerRejected(reason: Ignored)
    | CorruptData
    | Sqlite
    | FileProtection

  datatype Outcome = Outcome(db: Db, tracker: State, result: Result<seq<Update>, Error>)

  // ---- one transaction

  function DraftError(current: Snapshot, first: Draft, d: Draft): Option<Error> {
    if d.run != current.run then Some(CrossRun(current.run, d.run))
    else if d.provider != current.provider then Some(Error.ProviderMismatch(current.provider, d.provider))
    else if d.host != first.host || d.workspace != first.workspace || d.pane != first.pane
      then Some(ContextMismatch(d.run))
    else Option.None
  }

  function DraftsError(current: Snapshot, first: Draft, drafts: seq<Draft>): (e: Option<Error>)
    ensures e.None? <==> forall i :: 0 <= i < |drafts| ==> DraftError(current, first, drafts[i]).None?
    ensures e.Some? ==> !e.value.StaleTracker?
  {
    if drafts == [] then Option.None
    else
      match DraftError(current, first, drafts[0])
      case Some(e) => Some(e)
      case None => DraftsError(current, first, drafts[1..])
  }

  function LoadRun(db: Db, run: RunId): Result<Option<RunRow>, Error> {
    if run !in db.runs then Ok(Option.None)
    else
      var row := db.runs[run];
      if row.nextSequence < 1 then Err(CorruptData)
      else if row.latest.run != run then Err(CorruptData)
      else if row.latest.lastSequence.None? || row.latest.lastSequence.value == U64_MAX
              || row.latest.lastSequence.value + 1 != row.nextSequence then Err(CorruptData)
      else Ok(Some(row))
  }

  function SnapshotError(run: RunId, provider: Provider, s: Snapshot): Option<Error> {
    if s.run != run then Some(CrossRun(run, s.run))
    else if s.provider != provider then Some(Error.ProviderMismatch(provider, s.provider))
    else Option.None
  }

  /** The sequence the batch may start at, after every check against the stored run. */
  function StartSequence(db: Db, current: Snapshot, first: Draft): Result<int, Error> {
    match LoadRun(db, first.run)
    case Err(e) => Err(e)
    case Ok(None) =>
      if current.lastSequence.None? then Ok(1) else Err(StaleTracker(Option.None, current.lastSequence))
    case Ok(Some(row)) =>
      var bad := SnapshotError(first.run, first.provider, row.latest);
      if bad.Some? then Err(bad.value)
      else if row.provider != first.provider then Err(Error.ProviderMismatch(row.provider, first.provider))
      else if current.lastSequence != row.latest.lastSequence
        then Err(StaleTracker(row.latest.lastSequence, current.lastSequence))
      else
        var previous := (first.run, row.latest.lastSequence.value);
        if previous !in db.events then Err(Sqlite)
        else
          var e := db.events[previous].event;
          if e.host != first.host || e.workspace != first.workspace || e.pane != first.pane
          then Err(ContextMismatch(first.run)) else Ok(row.nextSequence)
  }

  function EventOf(d: Draft, sequence: u64): Event {
    Event(d.host, d.workspace, d.run, d.pane, d.provider, sequence, d.observedAt, d.source, d.kind)
  }

  /** One draft through the candidate tracker, with the re-checks made on its snapshot. */
  function Reduce(t: State, d: Draft, sequence: u64): Result<(State, Update), Error> {
    var e := EventOf(d, sequence);
    match ApplyEvent(t, e)
    case (_, Rejected(reason)) => Err(TrackerRejected(reason))
    case (t', Applied(s)) =>
      var bad := SnapshotError(d.run, d.provider, s);
      if bad.Some? then Err(bad.value)
      else if s.lastSequence != Some(sequence) then Err(CorruptData)
      else Ok((t', Update(e, s)))
  }

  function ReduceAll(t: State, drafts: seq<Draft>, sequence: int): (r: Result<(State, seq<Update>), Error>)
    requires 0 <= sequence && sequence + |drafts| <= I64_MAX
    ensures r.Ok? ==> |r.value.1| == |drafts|
    ensures r.Err? ==> !r.error.StaleTracker?
  {
    if drafts == [] then Ok((t, []))
    else
      var n := |drafts| - 1;
      match ReduceAll(t, drafts[..n], sequence)
      case Err(e) => Err(e)
      case Ok((t', updates)) =>
        match Reduce(t', drafts[n], sequence + n)
        case Err(e) => Err(e)
        case Ok((t'', update)) => Ok((t'', updates + [update]))
  }

  function InsertEvents(events: map<(RunId, int), Update>, run: RunId, updates: seq<Update>,
                        sequence: int): (r: map<(RunId, int), Update>)
    ensures forall key :: key in r <==> key in events || (key.0 == run && sequence <= key.1 < sequence + |updates|)
    ensures forall key :: key in r ==>
              r[key] == if key.0 == run && sequence <= key.1 < sequence + |updates| then updates[key.1 - sequence]
                else events[key]
  {
    if updates == [] then events
    else
      var n := |updates| - 1;
      InsertEvents(events, run, updates[..n], sequence)[(run, sequence + n) := updates[n]]
  }

  /** A primary-key conflict for one of the new rows. */
  predicate Occupied(db: Db, run: RunId, sequence: int, count: nat) {
    exists k :: sequence <= k < sequence + count && (run, k) in db.events
  }

  function Commit(db: Db, run: RunId, provider: Provider, updates: seq<Update>, sequence: int): Db
    requires updates != []
  {
    Db(db.runs[run := RunRow(provider, sequence + |updates|, updates[|updates| - 1].snapshot)],
       InsertEvents(db.events, run, updates, sequence))
  }

  /** What a non-empty batch would commit: its start sequence, the advanced tracker and the updates. */
  datatype Batch = Batch(sequence: int, tracker: State, updates: seq<Update>)

  function Prepare(db: Db, t: State, drafts: seq<Draft>): (r: Result<Batch, Error>)
    requires drafts != []
    ensures r.Ok? ==> |r.value.updates| == |drafts|
  {
    var first := drafts[0];
    var bad := DraftsError(SnapshotOf(t), first, drafts);
    if bad.Some? then Err(bad.value)
    else
      match StartSequence(db, SnapshotOf(t), first)
      case Err(e) => Err(e)
      case Ok(sequence) =>
        if sequence < 0 || sequence + |drafts| > I64_MAX then Err(SequenceExhausted(first.run))
        else
          match ReduceAll(t, drafts, sequence)
          case Err(e) => Err(e)
          case Ok((t', updates)) =>
            if Occupied(db, first.run, sequence, |updates|) then Err(Sqlite) else Ok(Batch(sequence, t', updates))
  }

  /**
   The batch transaction. `fileFault` is the failure that can follow the commit, when the
   database files cannot be made private.
   */
  function AppendBatch(db: Db, t: State, drafts: seq<Draft>, fileFault: bool): Outcome {
    if drafts == [] then Outcome(db, t, Ok([]))
    else
      match Prepare(db, t, drafts)
      case Err(e) => Outcome(db, t, Err(e))
      case Ok(batch) =>
        var db' := Commit(db, drafts[0].run, drafts[0].provider, batch.updates, batch.sequence);
        if fileFault then Outcome(db', t, Err(FileProtection)) else Outcome(db', batch.tracker, Ok(batch.updates))
  }

  /** The latest committed snapshot of a run, if its row decodes. */
  function ReadSnapshot(db: Db, run: RunId): Result<Option<Snapshot>, Error> {
    if run !in db.runs then Ok(Option.None)
    else if db.runs[run].latest.run != run then Err(CorruptData)
    else Ok(Some(db.runs[run].latest))
  }

  /** The tracker a one-shot writer starts from. */
  function Rehydrate(db: Db, run: RunId, provider: Provider, capability: Capability): State {
    if run in db.runs then FromSnapshot(db.runs[run].latest) else New(run, provider, capability)
  }

  // ---- the log invariant

  ghost predicate Consistent(db: Db) {
    && (forall key :: key in db.events ==> key.0 in db.runs)
    && forall run :: run in db.runs ==> RunConsistent(db, run)
  }

  ghost predicate RunConsistent(db: Db, run: RunId)
    requires run in db.runs
  {
    var row := db.runs[run];
    && 2 <= row.nextSequence <= I64_MAX
    && (forall k :: (run, k) in db.events <==> 1 <= k < row.nextSequence)
    && (forall k :: 1 <= k < row.nextSequence ==> RowConsistent(db, run, k))
    && row.latest == db.events[(run, row.nextSequence - 1)].snapshot
  }

  /** Event `k` says so itself, and shares host, workspace, pane and provider with event 1. */
  ghost predicate RowConsistent(db: Db, run: RunId, k: int)
    requires run in db.runs
  {
    && (run, k) in db.events && (run, 1) in db.events && 1 <= k <= U64_MAX
    && var u := db.events[(run, k)];
       var one := db.events[(run, 1)].event;
       && u.event.run == run && u.event.sequence == k && u.event.provider == db.runs[run].provider
       && u.event.host == one.host && u.event.workspace == one.workspace && u.event.pane == one.pane
       && u.snapshot.run == run && u.snapshot.provider == db.runs[run].provider && u.snapshot.lastSequence == Some(k)
  }

  /** A filler for a row that a consistent database never lacks. */
  const NO_ROW := Update(Event(0, 0, 0, Option.None, Codex, 0, 0, Source.ProcessSupervisor, StateUnknown),
                         SnapshotOf(New(0, Codex, Unavailable)))

  function Row(db: Db, run: RunId, k: int): Update {
    if (run, k) in db.events then db.events[(run, k)] else NO_ROW
  }

  function LogLength(db: Db, run: RunId): nat {
    if run in db.runs && db.runs[run].nextSequence >= 1 then db.runs[run].nextSequence - 1 else 0
  }

  /** The committed updates of a run, oldest first. */
  function Log(db: Db, run: RunId): (log: seq<Update>)
    ensures |log| == LogLength(db, run)
    ensures forall i :: 0 <= i < |log| ==> log[i] == Row(db, run, i + 1)
  {
    seq(LogLength(db, run), i => Row(db, run, i + 1))
  }

  lemma {:induction false} ReduceAllUpdates(t: State, drafts: seq<Draft>, sequence: int, i: nat)
    requires 0 <= sequence && sequence + |drafts| <= I64_MAX && i < |drafts|
    requires ReduceAll(t, drafts, sequence).Ok?
    ensures var u := ReduceAll(t, drafts, sequence).value.1[i];
            && u.event == EventOf(drafts[i], sequence + i)
            && u.snapshot.run == drafts[i].run && u.snapshot.provider == drafts[i].provider
            && u.snapshot.lastSequence == Some(sequence + i)
  {
    if i < |drafts| - 1 {
      ReduceAllUpdates(t, drafts[..|drafts| - 1], sequence, i);
    }
  }

  /** The batch gets as far as its commit. */
  predicate Commits(db: Db, t: State, drafts: seq<Draft>) {
    drafts != [] && Prepare(db, t, drafts).Ok?
  }

  function NewUpdates(db: Db, t: State, drafts: seq<Draft>): (updates: seq<Update>)
    requires Commits(db, t, drafts)
    ensures |updates| == |drafts|
  {
    Prepare(db, t, drafts).value.updates
  }

  /** A batch refused before its commit changes neither the tables nor the caller's tracker. */
  lemma RefusedBatchChangesNothing(db: Db, t: State, drafts: seq<Draft>, fileFault: bool)
    requires !Commits(db, t, drafts)
    ensures AppendBatch(db, t, drafts, fileFault).db == db
    ensures AppendBatch(db, t, drafts, fileFault).tracker == t
    ensures drafts != [] ==> AppendBatch(db, t, drafts, fileFault).result.Err?
  {
  }

  lemma PreparedSequence(db: Db, t: State, drafts: seq<Draft>)
    requires Consistent(db) && Commits(db, t, drafts)
    ensures Prepare(db, t, drafts).value.sequence == LogLength(db, drafts[0].run) + 1
    ensures LogLength(db, drafts[0].run) + 1 + |drafts| <= I64_MAX
  {
    if drafts[0].run in db.runs {
      assert RunConsistent(db, drafts[0].run);
    }
  }

  /** What preparing a batch establishes about its updates. */
  lemma PreparedUpdates(db: Db, t: State, drafts: seq<Draft>, i: nat)
    requires Commits(db, t, drafts) && i < |drafts|
    ensures var u := NewUpdates(db, t, drafts)[i];
            var sequence := Prepare(db, t, drafts).value.sequence;
            && u.event == EventOf(drafts[i], sequence + i)
            && u.event.run == drafts[0].run && u.event.provider == drafts[0].provider
            && u.event.host == drafts[0].host && u.event.workspace == drafts[0].workspace
            && u.event.pane == drafts[0].pane
            && u.snapshot.run == drafts[0].run && u.snapshot.provider == drafts[0].provider
            && u.snapshot.lastSequence == Some(sequence + i)
  {
    hide ReduceAll, StartSequence, SnapshotOf, Occupied;
    var batch := Prepare(db, t, drafts).value;
    assert DraftError(SnapshotOf(t), drafts[0], drafts[i]).None?;
    assert DraftError(SnapshotOf(t), drafts[0], drafts[0]).None?;
    ReduceAllUpdates(t, drafts, batch.sequence, i);
  }

  /** A committed batch keeps the invariant and extends exactly one run's log, by exactly its drafts. */
  lemma CommittedBatchExtendsLog(db: Db, t: State, drafts: seq<Draft>, fileFault: bool)
    requires Consistent(db) && Commits(db, t, drafts)
    ensures var db' := AppendBatch(db, t, drafts, fileFault).db;
            var run := drafts[0].run;
            && Consistent(db')
            && Log(db', run) == Log(db, run) + NewUpdates(db, t, drafts)
            && (forall r :: r != run ==> Log(db', r) == Log(db, r))
    ensures forall i :: 0 <= i < |drafts| ==>
              NewUpdates(db, t, drafts)[i].event == EventOf(drafts[i], LogLength(db, drafts[0].run) + 1 + i)
  {
    var batch := Prepare(db, t, drafts).value;
    PreparedSequence(db, t, drafts);
    StartedFromStoredRun(db, t, drafts);
    forall i | 0 <= i < |drafts|
      ensures batch.updates[i].event == EventOf(drafts[i], batch.sequence + i)
    {
      PreparedUpdates(db, t, drafts, i);
    }
    var run, provider := drafts[0].run, drafts[0].provider;
    var one := if run in db.runs then Row(db, run, batch.sequence - 1).event else EventOf(drafts[0], 1);
    assert Fits(db, run, provider, batch.updates, batch.sequence, one) by {
      forall i | 0 <= i < |drafts|
        ensures var u := batch.updates[i];
                && u.event.run == run && u.event.sequence == batch.sequence + i && u.event.provider == provider
                && u.event.host == one.host && u.event.workspace == one.workspace && u.event.pane == one.pane
                && u.snapshot.run == run && u.snapshot.provider == provider
                && u.snapshot.lastSequence == Some(batch.sequence + i)
      {
        PreparedUpdates(db, t, drafts, i);
      }
    }
    CommitKeepsConsistent(db, run, provider, batch.updates, batch.sequence, one);
    CommitExtendsLog(db, run, provider, batch.updates, batch.sequence);
  }

  /** The checks against the stored run tie the batch to the run's provider and context. */
  lemma StartedFromStoredRun(db: Db, t: State, drafts: seq<Draft>)
    requires Consistent(db) && Commits(db, t, drafts)
    ensures var run := drafts[0].run;
            run in db.runs ==>
              && db.runs[run].provider == drafts[0].provider
              && (run, db.runs[run].nextSequence - 1) in db.events
              && var e := db.events[(run, db.runs[run].nextSequence - 1)].event;
                 e.host == drafts[0].host && e.workspace == drafts[0].workspace && e.pane == drafts[0].pane
  {
    var run := drafts[0].run;
    if run in db.runs {
      assert RunConsistent(db, run);
      assert RowConsistent(db, run, db.runs[run].nextSequence - 1);
    }
  }

  /** The latest snapshot is the one committed with the last event. */
  lemma LatestIsLast(db: Db, run: RunId)
    requires Consistent(db) && run in db.runs
    ensures LogLength(db, run) >= 1
    ensures db.runs[run].latest == Log(db, run)[LogLength(db, run) - 1].snapshot
    ensures db.runs[run].latest.lastSequence == Some(LogLength(db, run))
    ensures db.runs[run].latest.run == run && db.runs[run].latest.provider == db.runs[run].provider
  {
    assert RunConsistent(db, run);
    assert RowConsistent(db, run, LogLength(db, run));
  }

  /** A batch commits only from a tracker that has seen exactly the committed events. */
  lemma CommitsOnlyWhenCurrent(db: Db, t: State, drafts: seq<Draft>)
    requires Consistent(db) && Commits(db, t, drafts)
    ensures t.lastSequence == if drafts[0].run in db.runs then Some(LogLength(db, drafts[0].run)) else Option.None
  {
    if drafts[0].run in db.runs {
      LatestIsLast(db, drafts[0].run);
    }
  }

  /** Whatever the tables hold, a run is extended only if its row fits its snapshot and its last event this batch. */
  lemma OnlySoundRunsAreExtended(db: Db, t: State, drafts: seq<Draft>)
    requires Commits(db, t, drafts) && drafts[0].run in db.runs
    ensures var first, row := drafts[0], db.runs[drafts[0].run];
            && row.provider == row.latest.provider == first.provider && row.latest.run == first.run
            && row.nextSequence >= 1 && row.latest.lastSequence == Some(row.nextSequence - 1) == t.lastSequence
            && (first.run, row.nextSequence - 1) in db.events
            && var e := db.events[(first.run, row.nextSequence - 1)].event;
               e.host == first.host && e.workspace == first.workspace && e.pane == first.pane
    ensures forall key :: key in db.events && key.0 == drafts[0].run ==>
              !(db.runs[drafts[0].run].nextSequence <= key.1 < db.runs[drafts[0].run].nextSequence + |drafts|)
  {
    hide ReduceAll, DraftsError;
    assert !Occupied(db, drafts[0].run, db.runs[drafts[0].run].nextSequence, |drafts|);
    forall key | key in db.events && key.0 == drafts[0].run
      ensures !(db.runs[drafts[0].run].nextSequence <= key.1 < db.runs[drafts[0].run].nextSequence + |drafts|)
    {
      assert key == (drafts[0].run, key.1);
    }
  }

  lemma CommitTouchesOneRun(db: Db, t: State, drafts: seq<Draft>, fileFault: bool)
    requires Commits(db, t, drafts)
    ensures var db', run := AppendBatch(db, t, drafts, fileFault).db, drafts[0].run;
            && run in db'.runs && db'.runs[run].provider == drafts[0].provider
            && forall r :: r != run ==>
                 (r in db'.runs <==> r in db.runs) && (r in db.runs ==> db'.runs[r] == db.runs[r])
  {
  }

  /** Whatever its outcome, a batch keeps the invariant and every run's log as a prefix. */
  lemma BatchOnlyExtends(db: Db, t: State, drafts: seq<Draft>, fileFault: bool)
    requires Consistent(db)
    ensures Consistent(AppendBatch(db, t, drafts, fileFault).db)
    ensures forall run :: Log(db, run) <= Log(AppendBatch(db, t, drafts, fileFault).db, run)
  {
    hide AppendBatch, Prepare;
    if Commits(db, t, drafts) {
      CommittedBatchExtendsLog(db, t, drafts, fileFault);
    } else {
      RefusedBatchChangesNothing(db, t, drafts, fileFault);
    }
  }

  lemma OtherRunUnchanged(db: Db, db': Db, r: RunId)
    requires r in db.runs && r in db'.runs && RunConsistent(db, r)
    requires db'.runs[r] == db.runs[r]
    requires forall k :: (r, k) in db'.events <==> (r, k) in db.events
    requires forall k :: (r, k) in db.events ==> db'.events[(r, k)] == db.events[(r, k)]
    ensures RunConsistent(db', r)
  {
    forall k | 1 <= k < db.runs[r].nextSequence ensures RowConsistent(db', r, k) {
      assert RowConsistent(db, r, k);
    }
  }

  /** Updates that continue the run's log, all with the context of `one`. */
  ghost predicate Fits(db: Db, run: RunId, provider: Provider, updates: seq<Update>, sequence: int, one: Event) {
    && updates != [] && sequence == LogLength(db, run) + 1 && sequence + |updates| <= I64_MAX
    && (run in db.runs ==> db.runs[run].provider == provider && one == Row(db, run, sequence - 1).event)
    && forall i :: 0 <= i < |updates| ==>
         var u := updates[i];
         && u.event.run == run && u.event.sequence == sequence + i && u.event.provider == provider
         && u.event.host == one.host && u.event.workspace == one.workspace && u.event.pane == one.pane
         && u.snapshot.run == run && u.snapshot.provider == provider && u.snapshot.lastSequence == Some(sequence + i)
  }

  lemma CommitKeepsRun(db: Db, run: RunId, provider: Provider, updates: seq<Update>, sequence: int, one: Event)
    requires Consistent(db) && Fits(db, run, provider, updates, sequence, one)
    ensures RunConsistent(Commit(db, run, provider, updates, sequence), run)
  {
    var db' := Commit(db, run, provider, updates, sequence);
    forall k ensures (run, k) in db'.events <==> 1 <= k < sequence + |updates| {
      if run in db.runs {
        assert RunConsistent(db, run);
      }
    }
    forall k | 1 <= k < sequence + |updates| ensures RowConsistent(db', run, k) {
      if run in db.runs {
        assert RunConsistent(db, run);
        assert RowConsistent(db, run, sequence - 1);
        if k < sequence {
          assert RowConsistent(db, run, k);
        }
      }
      if k >= sequence {
        assert db'.events[(run, k)] == updates[k - sequence];
      }
    }
  }

  lemma CommitKeepsConsistent(db: Db, run: RunId, provider: Provider, updates: seq<Update>, sequence: int, one: Event)
    requires Consistent(db) && Fits(db, run, provider, updates, sequence, one)
    ensures Consistent(Commit(db, run, provider, updates, sequence))
  {
    var db' := Commit(db, run, provider, updates, sequence);
    CommitKeepsRun(db, run, provider, updates, sequence, one);
    forall r | r in db'.runs ensures RunConsistent(db', r) {
      if r != run {
        assert RunConsistent(db, r);
        OtherRunUnchanged(db, db', r);
      }
    }
  }

  lemma CommitExtendsLog(db: Db, run: RunId, provider: Provider, updates: seq<Update>, sequence: int)
    requires updates != [] && sequence == LogLength(db, run) + 1
    ensures Log(Commit(db, run, provider, updates, sequence), run) == Log(db, run) + updates
    ensures forall r :: r != run ==> Log(Commit(db, run, provider, updates, sequence), r) == Log(db, r)
  {
    var db' := Commit(db, run, provider, updates, sequence);
    var log, log' := Log(db, run), Log(db', run);
    forall i | 0 <= i < |log'| ensures log'[i] == (log + updates)[i] {
      if i >= |log| {
        assert db'.events[(run, i + 1)] == updates[i + 1 - sequence];
      }
    }
    forall r | r != run ensures Log(db', r) == Log(db, r) {
      assert LogLength(db', r) == LogLength(db, r);
    }
  }
}

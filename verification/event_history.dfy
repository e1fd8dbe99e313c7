/**
 Whole histories of the event log: many one-shot writers, each rehydrating its tracker from
 a state it read earlier, interleaved in any order.
 */
module EventHistory {
  import opened Prelude
  import opened AgentModel
  import opened Tracker
  import opened EventLog

  ghost predicate Extends(db: Db, later: Db) {
    forall run :: Log(db, run) <= Log(later, run)
  }

  // ---- no lost update

  /**
   A batch computed from a tracker rehydrated in an earlier state commits only if that
   tracker is what rehydrating in the committing state would give.
   */
  lemma StaleReadersCannotCommit(read: Db, now: Db, drafts: seq<Draft>, capability: Capability)
    requires Consistent(read) && Consistent(now) && Extends(read, now) && drafts != []
    requires Commits(now, Rehydrate(read, drafts[0].run, drafts[0].provider, capability), drafts)
    ensures Rehydrate(read, drafts[0].run, drafts[0].provider, capability)
         == Rehydrate(now, drafts[0].run, drafts[0].provider, capability)
  {
    hide AppendBatch, Prepare;
    var run := drafts[0].run;
    var t := Rehydrate(read, run, drafts[0].provider, capability);
    CommitsOnlyWhenCurrent(now, t, drafts);
    if run in read.runs {
      LatestIsLast(read, run);
    }
    if run in now.runs {
      LatestIsLast(now, run);
    }
    assert Log(read, run) <= Log(now, run);
  }

  // ---- replay

  /** The tracker after a run of committed events, without any rehydration in between. */
  function Fold(t: State, updates: seq<Update>): State {
    if updates == [] then t
    else ApplyEvent(Fold(t, updates[..|updates| - 1]), updates[|updates| - 1].event).0
  }

  lemma {:induction false} FoldConcat(t: State, a: seq<Update>, b: seq<Update>)
    ensures Fold(t, a + b) == Fold(Fold(t, a), b)
  {
    if b == [] {
      assert a + b == a;
    } else {
      assert (a + b)[..|a + b| - 1] == a + b[..|b| - 1];
      FoldConcat(t, a, b[..|b| - 1]);
    }
  }

  lemma {:induction false} FoldKeeps(t: State, updates: seq<Update>)
    requires t.blocker == Option.None
    ensures Fold(t, updates).blocker == Option.None && Fold(t, updates).capability == t.capability
  {
    hide Refusal, SnapshotOf;
    if updates != [] {
      FoldKeeps(t, updates[..|updates| - 1]);
    }
  }

  /** A batch reduced from an alike tracker stores exactly the snapshots of the fold. */
  lemma {:induction false} ReduceAllFollowsFold(t: State, u: State, drafts: seq<Draft>, sequence: int)
    requires Alike(t, u) && 0 <= sequence && sequence + |drafts| <= I64_MAX
    requires ReduceAll(t, drafts, sequence).Ok?
    ensures var (t', updates) := ReduceAll(t, drafts, sequence).value;
            && Alike(t', Fold(u, updates))
            && forall i :: 0 <= i < |updates| ==> updates[i].snapshot == SnapshotOf(Fold(u, updates[..i + 1]))
  {
    hide Accept, Refusal, SnapshotOf;
    if drafts != [] {
      var n := |drafts| - 1;
      ReduceAllFollowsFold(t, u, drafts[..n], sequence);
      var (t1, before) := ReduceAll(t, drafts[..n], sequence).value;
      var (t2, updates) := ReduceAll(t, drafts, sequence).value;
      assert updates[..n] == before;
      AlikeStep(t1, Fold(u, before), updates[n].event);
      forall i | 0 <= i < |updates| ensures updates[i].snapshot == SnapshotOf(Fold(u, updates[..i + 1])) {
        if i < n {
          assert updates[..i + 1] == before[..i + 1];
        } else {
          assert updates[..i + 1] == updates;
        }
      }
    }
  }

  /** Every stored snapshot is the replay of the log prefix it was committed with. */
  ghost predicate Replayed(db: Db) {
    forall run :: run in db.runs ==> RunReplayed(db, run)
  }

  ghost predicate RunReplayed(db: Db, run: RunId)
    requires run in db.runs
  {
    var start := New(run, db.runs[run].provider, db.runs[run].latest.capability);
    forall k :: 0 < k <= LogLength(db, run) ==>
      Log(db, run)[k - 1].snapshot == SnapshotOf(Fold(start, Log(db, run)[..k]))
  }

  lemma RehydratedIsAlikeFold(db: Db, run: RunId, provider: Provider, capability: Capability)
    requires Consistent(db) && Replayed(db)
    requires run in db.runs ==> provider == db.runs[run].provider && capability == db.runs[run].latest.capability
    ensures Alike(Rehydrate(db, run, provider, capability), Fold(New(run, provider, capability), Log(db, run)))
  {
    var start := New(run, provider, capability);
    if run in db.runs {
      assert RunConsistent(db, run);
      var n := LogLength(db, run);
      assert Log(db, run)[..n] == Log(db, run);
      FoldKeeps(start, Log(db, run));
      RehydrationIsAlike(Fold(start, Log(db, run)));
    }
  }

  /** A write from the latest state keeps the log a pure replay. */
  lemma TransientWriteKeepsReplay(db: Db, drafts: seq<Draft>, capability: Capability, fileFault: bool)
    requires Consistent(db) && Replayed(db) && drafts != []
    requires Commits(db, Rehydrate(db, drafts[0].run, drafts[0].provider, capability), drafts)
    ensures Replayed(AppendBatch(db, Rehydrate(db, drafts[0].run, drafts[0].provider, capability), drafts,
                                 fileFault).db)
  {
    hide AppendBatch, Prepare, Consistent, Rehydrate, Log, Fold;
    var run := drafts[0].run;
    var t := Rehydrate(db, run, drafts[0].provider, capability);
    var db' := AppendBatch(db, t, drafts, fileFault).db;
    CommitTouchesOneRun(db, t, drafts, fileFault);
    CommittedBatchExtendsLog(db, t, drafts, fileFault);
    var kept := if run in db.runs then db.runs[run].latest.capability else capability;
    NewRowsReplay(db, drafts, capability, kept);
    StartedFromStoredRun(db, t, drafts);
    LatestIsLast(db', run);
    ReplayContinues(db, db', run, drafts[0].provider, kept, NewUpdates(db, t, drafts));
    forall r | r in db'.runs ensures RunReplayed(db', r) {
      if r != run {
        assert RunReplayed(db, r);
        assert Log(db', r) == Log(db, r);
      }
    }
  }

  lemma PrefixesReplay(start: State, log: seq<Update>, updates: seq<Update>, k: nat)
    requires 0 < k <= |log| + |updates|
    requires k <= |log| ==> log[k - 1].snapshot == SnapshotOf(Fold(start, log[..k]))
    requires k > |log| ==> updates[k - |log| - 1].snapshot == SnapshotOf(Fold(start, log + updates[..k - |log|]))
    ensures (log + updates)[k - 1].snapshot == SnapshotOf(Fold(start, (log + updates)[..k]))
  {
    if k <= |log| {
      assert (log + updates)[..k] == log[..k];
    } else {
      assert (log + updates)[..k] == log + updates[..k - |log|];
    }
  }

  lemma ReplayContinues(db: Db, db': Db, run: RunId, provider: Provider, kept: Capability, updates: seq<Update>)
    requires updates != [] && run in db'.runs && db'.runs[run].provider == provider
    requires Log(db', run) == Log(db, run) + updates
    requires LogLength(db', run) > 0 && db'.runs[run].latest == Log(db', run)[LogLength(db', run) - 1].snapshot
    requires run in db.runs ==>
               RunReplayed(db, run) && kept == db.runs[run].latest.capability && provider == db.runs[run].provider
    requires run !in db.runs ==> Log(db, run) == []
    requires forall i :: 0 <= i < |updates| ==>
               updates[i].snapshot == SnapshotOf(Fold(New(run, provider, kept), Log(db, run) + updates[..i + 1]))
    ensures RunReplayed(db', run)
  {
    hide Log, LogLength, Fold, SnapshotOf;
    var start, log, log' := New(run, provider, kept), Log(db, run), Log(db', run);
    forall k | 0 < k <= |log'| ensures log'[k - 1].snapshot == SnapshotOf(Fold(start, log'[..k])) {
      if k > |log| {
        assert updates[k - |log| - 1].snapshot == SnapshotOf(Fold(start, log + updates[..k - |log| - 1 + 1]));
      }
      PrefixesReplay(start, log, updates, k);
    }
    assert log'[..|log'|] == log';
    ReplayKeepsCapability(start, log');
  }

  lemma ReplayKeepsCapability(start: State, log: seq<Update>)
    requires start.blocker == Option.None
    ensures SnapshotOf(Fold(start, log)).capability == start.capability
  {
    FoldKeeps(start, log);
  }

  lemma NewRowsReplay(db: Db, drafts: seq<Draft>, capability: Capability, kept: Capability)
    requires Consistent(db) && Replayed(db) && drafts != []
    requires kept == if drafts[0].run in db.runs then db.runs[drafts[0].run].latest.capability else capability
    requires Commits(db, Rehydrate(db, drafts[0].run, drafts[0].provider, capability), drafts)
    ensures var run := drafts[0].run;
            var start := New(run, drafts[0].provider, kept);
            var updates := NewUpdates(db, Rehydrate(db, run, drafts[0].provider, capability), drafts);
            forall i :: 0 <= i < |updates| ==>
              updates[i].snapshot == SnapshotOf(Fold(start, Log(db, run) + updates[..i + 1]))
  {
    var run, provider := drafts[0].run, drafts[0].provider;
    var t := Rehydrate(db, run, provider, capability);
    StartedFromStoredRun(db, t, drafts);
    var start := New(run, provider, kept);
    var batch := Prepare(db, t, drafts).value;
    RehydratedIsAlikeFold(db, run, provider, kept);
    ReduceAllFollowsFold(t, Fold(start, Log(db, run)), drafts, batch.sequence);
    forall i | 0 <= i < |batch.updates|
      ensures batch.updates[i].snapshot == SnapshotOf(Fold(start, Log(db, run) + batch.updates[..i + 1]))
    {
      FoldConcat(start, Log(db, run), batch.updates[..i + 1]);
    }
  }

  // ---- interleaved writers

  /** A one-shot write: which state its tracker was rehydrated in, and what it appends. */
  datatype Write = Write(readAt: nat, drafts: seq<Draft>, capability: Capability, fileFault: bool)

  function StartedIn(db: Db, w: Write): State
    requires w.drafts != []
  {
    Rehydrate(db, w.drafts[0].run, w.drafts[0].provider, w.capability)
  }

  /** State `i + 1` follows from state `i` by write `i`, whose read may be arbitrarily old. */
  ghost predicate Interleaving(h: seq<Db>, writes: seq<Write>) {
    && |h| == |writes| + 1
    && h[0] == Db(map[], map[])
    && forall i :: 0 <= i < |writes| ==>
         && writes[i].readAt <= i && writes[i].drafts != []
         && h[i + 1]
              == AppendBatch(h[i], StartedIn(h[writes[i].readAt], writes[i]), writes[i].drafts, writes[i].fileFault).db
  }

  lemma {:induction false} HistoryOnlyExtends(h: seq<Db>, writes: seq<Write>, j: nat, i: nat)
    requires Interleaving(h, writes) && j <= i < |h|
    requires forall k :: 0 <= k < i ==> Consistent(h[k])
    ensures Extends(h[j], h[i])
  {
    hide AppendBatch, Prepare, Consistent, Log, Rehydrate;
    if j < i {
      HistoryOnlyExtends(h, writes, j, i - 1);
      var w := writes[i - 1];
      BatchOnlyExtends(h[i - 1], StartedIn(h[w.readAt], w), w.drafts, w.fileFault);
      forall run ensures Log(h[j], run) <= Log(h[i], run) {
        assert Log(h[j], run) <= Log(h[i - 1], run);
      }
    }
  }

  lemma EmptyIsSound(db: Db)
    requires db == Db(map[], map[])
    ensures Consistent(db) && Replayed(db)
  {
  }

  lemma {:induction false} HistoryIsSound(h: seq<Db>, writes: seq<Write>, i: nat)
    requires Interleaving(h, writes) && i < |h|
    ensures forall k :: 0 <= k <= i ==> Consistent(h[k]) && Replayed(h[k])
  {
    hide AppendBatch, Prepare, Consistent, Log, Rehydrate, Replayed;
    if i == 0 {
      EmptyIsSound(h[0]);
    } else {
      HistoryIsSound(h, writes, i - 1);
      var w := writes[i - 1];
      var t := StartedIn(h[w.readAt], w);
      if Commits(h[i - 1], t, w.drafts) {
        HistoryOnlyExtends(h, writes, w.readAt, i - 1);
        StaleReadersCannotCommit(h[w.readAt], h[i - 1], w.drafts, w.capability);
        CommittedBatchExtendsLog(h[i - 1], t, w.drafts, w.fileFault);
        TransientWriteKeepsReplay(h[i - 1], w.drafts, w.capability, w.fileFault);
      } else {
        RefusedBatchChangesNothing(h[i - 1], t, w.drafts, w.fileFault);
      }
    }
  }

  /** Whatever the interleaving, a write that commits was computed from the very state it commits on. */
  lemma CommittedWriteIsCurrent(h: seq<Db>, writes: seq<Write>, i: nat)
    requires Interleaving(h, writes) && i < |writes|
    requires Commits(h[i], StartedIn(h[writes[i].readAt], writes[i]), writes[i].drafts)
    ensures Consistent(h[i]) && Replayed(h[i])
    ensures StartedIn(h[writes[i].readAt], writes[i]) == StartedIn(h[i], writes[i])
  {
    hide AppendBatch, Prepare, Consistent, Log, Rehydrate, Replayed;
    HistoryIsSound(h, writes, i);
    HistoryOnlyExtends(h, writes, writes[i].readAt, i);
    StaleReadersCannotCommit(h[writes[i].readAt], h[i], writes[i].drafts, writes[i].capability);
  }

  /** No update is lost: a committed write adds exactly its own drafts after everything before it. */
  lemma NoLostUpdate(h: seq<Db>, writes: seq<Write>, i: nat, k: nat)
    requires Interleaving(h, writes) && i < |writes| && k < |writes[i].drafts|
    requires Commits(h[i], StartedIn(h[writes[i].readAt], writes[i]), writes[i].drafts)
    ensures var run := writes[i].drafts[0].run;
            var n := LogLength(h[i], run);
            && LogLength(h[i + 1], run) == n + |writes[i].drafts| <= U64_MAX
            && Log(h[i], run) <= Log(h[i + 1], run)
            && Log(h[i + 1], run)[n + k].event == EventOf(writes[i].drafts[k], n + 1 + k)
  {
    hide AppendBatch, Prepare, Consistent, LogLength, Rehydrate, Replayed;
    CommittedWriteIsCurrent(h, writes, i);
    var w := writes[i];
    var t := StartedIn(h[w.readAt], w);
    PreparedSequence(h[i], t, w.drafts);
    CommittedBatchExtendsLog(h[i], t, w.drafts, w.fileFault);
  }
}

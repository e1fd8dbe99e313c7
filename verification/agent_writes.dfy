/**
 What a locked write does to the event log of one run: the tracker is rehydrated from the stored
 snapshot, and nobody else writes in between.
 */
module AgentWrites {
  import opened Prelude
  import opened AgentModel
  import opened Tracker
  import opened TrackerHistory
  import opened EventLog
  import opened EventHistory
  import opened AgentRuns
  import Freshness

  const HEALTH_STALE_AFTER := 10_000

  function CapabilityOf(provider: Provider): Capability {
    if provider.OpenCode? then ProviderEvents else ProviderEventsWithOverlay
  }

  function DraftOf(c: Context, kind: Kind, source: Source, at: u64): Draft {
    Draft(c.host, c.workspace, c.run, c.pane, c.provider, at, source, kind)
  }

  function Drafts(c: Context, kinds: seq<Kind>, source: Source, at: u64): (drafts: seq<Draft>)
    ensures |drafts| == |kinds|
    ensures forall i :: 0 <= i < |kinds| ==> drafts[i] == DraftOf(c, kinds[i], source, at)
  {
    seq(|kinds|, i requires 0 <= i < |kinds| => DraftOf(c, kinds[i], source, at))
  }

  /** The tracker a locked write starts from. */
  function Start(db: Db, c: Context): State {
    Rehydrate(db, c.run, c.provider, CapabilityOf(c.provider))
  }

  predicate Writes(db: Db, c: Context, drafts: seq<Draft>) {
    Commits(db, Start(db, c), drafts)
  }

  function Written(db: Db, c: Context, drafts: seq<Draft>): Db {
    AppendBatch(db, Start(db, c), drafts, false).db
  }

  predicate HasContext(e: Event, c: Context) {
    e.host == c.host && e.workspace == c.workspace && e.run == c.run && e.pane == c.pane && e.provider == c.provider
  }

  /** Logged events carry the context their run is registered with. */
  ghost predicate ContextsAgree(rows: Rows, db: Db) {
    forall run :: run in db.runs ==>
      run in rows && HasContext(Row(db, run, LogLength(db, run)).event, rows[run].context)
  }

  function Committed(db: Db, c: Context): Snapshot {
    if c.run in db.runs then db.runs[c.run].latest else SnapshotOf(New(c.run, c.provider, CapabilityOf(c.provider)))
  }

  predicate IsExited(db: Db, run: RunId) {
    run in db.runs && db.runs[run].latest.state == AgentState.Exited
  }

  /** Everything one operation, or any number of them, keeps: above all, an inactive run's log is frozen. */
  ghost predicate Follows(rows: Rows, db: Db, rows': Rows, db': Db) {
    && Evolves(rows, rows')
    && Extends(db, db')
    && forall run :: Inactive(rows, run) ==> Log(db', run) == Log(db, run)
  }

  lemma FollowsTransitively(rows: Rows, db: Db, rows1: Rows, db1: Db, rows2: Rows, db2: Db)
    requires Follows(rows, db, rows1, db1) && Follows(rows1, db1, rows2, db2)
    ensures Follows(rows, db, rows2, db2)
  {
    hide Log;
    EvolvesTransitively(rows, rows1, rows2);
    forall run ensures Log(db, run) <= Log(db2, run) && (Inactive(rows, run) ==> Log(db2, run) == Log(db, run)) {
      assert Log(db, run) <= Log(db1, run) <= Log(db2, run);
      if Inactive(rows, run) {
        assert Inactive(rows1, run);
      }
    }
  }

  ghost predicate SameRun(db: Db, db': Db, run: RunId) {
    && Log(db', run) == Log(db, run)
    && (run in db'.runs <==> run in db.runs)
    && (run in db.runs ==> db'.runs[run] == db.runs[run])
  }

  /** A write for an active run changes that run's log and nothing else. */
  lemma WriteTouchesOneRun(rows: Rows, db: Db, c: Context, drafts: seq<Draft>)
    requires Consistent(db) && ContextsAgree(rows, db) && Writes(db, c, drafts)
    requires c.run in rows && rows[c.run].context == c && rows[c.run].active
    requires forall i :: 0 <= i < |drafts| ==> HasContext(EventOf(drafts[i], 1), c)
    ensures var db' := Written(db, c, drafts);
            && Consistent(db') && ContextsAgree(rows, db') && Follows(rows, db, rows, db')
            && forall run :: run != c.run ==> SameRun(db, db', run)
  {
    hide Consistent, AppendBatch, Prepare, Rehydrate, Log;
    var t, db' := Start(db, c), Written(db, c, drafts);
    CommittedBatchExtendsLog(db, t, drafts, false);
    CommitTouchesOneRun(db, t, drafts, false);
    forall run | run in db'.runs ensures HasContext(Row(db', run, LogLength(db', run)).event, rows[run].context) {
      LastRow(db', run);
      if run == c.run {
        LastUpdate(db, db', c, drafts);
      } else {
        LastRow(db, run);
      }
    }
  }

  lemma LastRow(db: Db, run: RunId)
    requires Consistent(db) && run in db.runs
    ensures |Log(db, run)| == LogLength(db, run) >= 1
    ensures Row(db, run, LogLength(db, run)) == Log(db, run)[LogLength(db, run) - 1]
  {
    LatestIsLast(db, run);
  }

  lemma LastUpdate(db: Db, db': Db, c: Context, drafts: seq<Draft>)
    requires Consistent(db) && Writes(db, c, drafts) && db' == Written(db, c, drafts)
    requires forall i :: 0 <= i < |drafts| ==> HasContext(EventOf(drafts[i], 1), c)
    requires |Log(db', c.run)| >= 1
    ensures HasContext(Log(db', c.run)[|Log(db', c.run)| - 1].event, c)
  {
    hide Consistent, AppendBatch, Prepare, Rehydrate, Log;
    CommittedBatchExtendsLog(db, Start(db, c), drafts, false);
    assert HasContext(EventOf(drafts[0], 1), c) && drafts[0].run == c.run;
    assert HasContext(EventOf(drafts[|drafts| - 1], 1), c);
  }

  lemma FaultyWriteIsTheSame(db: Db, c: Context, drafts: seq<Draft>, fileFault: bool)
    ensures AppendBatch(db, Start(db, c), drafts, fileFault).db == Written(db, c, drafts)
  {
  }

  // ---- which writes are accepted

  /** The capability that decides about the provider's own questions: the committed one, or the provider's. */
  function CapabilityNow(db: Db, c: Context): Capability {
    if c.run in db.runs then db.runs[c.run].latest.capability else CapabilityOf(c.provider)
  }

  predicate IsAdmissible(kind: Kind, source: Source, capability: Capability) {
    Tells(source, kind) && (kind.NeedsInput? ==> capability.AcceptsProviderEvents())
  }

  /** The run's log has room for so many more events; the sequence after them must still be a 64-bit number. */
  predicate HasRoomFor(db: Db, run: RunId, n: nat) {
    LogLength(db, run) + n < I64_MAX
  }

  /** What a locked write for an active run needs: something to say, room for it, and a source that may say it. */
  predicate Accepts(db: Db, c: Context, kinds: seq<Kind>, source: Source) {
    && kinds != [] && HasRoomFor(db, c.run, |kinds|)
    && forall i :: 0 <= i < |kinds| ==> IsAdmissible(kinds[i], source, CapabilityNow(db, c))
  }

  /** The log after such a write, accepted or not. */
  function AfterWrite(db: Db, c: Context, kinds: seq<Kind>, source: Source, at: u64): Db {
    if Accepts(db, c, kinds, source) then Written(db, c, Drafts(c, kinds, source, at)) else db
  }

  /** A report that its source may always make needs only room. */
  lemma ReportNeedsRoom(db: Db, c: Context, kind: Kind, source: Source)
    requires Tells(source, kind) && !kind.NeedsInput?
    ensures Accepts(db, c, [kind], source) <==> HasRoomFor(db, c.run, 1)
  {
  }

  lemma NothingAccepted(db: Db, c: Context, source: Source)
    ensures !Accepts(db, c, [], source)
  {
  }

  lemma OneDraft(c: Context, kind: Kind, source: Source, at: u64)
    ensures Drafts(c, [kind], source, at) == [DraftOf(c, kind, source, at)]
  {
  }

  /** The run, if it has events, has them under this context. */
  ghost predicate HasItsContext(db: Db, c: Context) {
    c.run in db.runs ==> HasContext(Row(db, c.run, LogLength(db, c.run)).event, c)
  }

  lemma {:induction false} ReducesExactly(t: State, drafts: seq<Draft>, sequence: int, n: nat)
    requires n <= |drafts| && 0 <= sequence && sequence + |drafts| <= I64_MAX
    requires forall i :: 0 <= i < |drafts| ==> drafts[i].run == t.run && drafts[i].provider == t.provider
    requires t.lastSequence.Some? ==> t.lastSequence.value < sequence
    ensures var r := ReduceAll(t, drafts[..n], sequence);
            && (r.Ok? <==> forall i :: 0 <= i < n ==> IsAdmissible(drafts[i].kind, drafts[i].source, t.capability))
            && (r.Ok? ==>
                  && r.value.0.run == t.run && r.value.0.provider == t.provider && r.value.0.capability == t.capability
                  && (r.value.0.lastSequence.Some? ==> r.value.0.lastSequence.value < sequence + n)
                  && forall i :: 0 <= i < n ==> r.value.1[i].snapshot.capability == t.capability)
  {
    hide ApplyEvent, SnapshotOf;
    if n > 0 {
      ReducesExactly(t, drafts, sequence, n - 1);
      assert drafts[..n][..n - 1] == drafts[..n - 1] && drafts[..n][n - 1] == drafts[n - 1];
      var before := ReduceAll(t, drafts[..n - 1], sequence);
      if before.Ok? {
        OneMoreReduced(before.value.0, drafts[n - 1], sequence + n - 1);
      }
    }
  }

  lemma OneMoreReduced(t: State, draft: Draft, sequence: u64)
    requires draft.run == t.run && draft.provider == t.provider
    requires t.lastSequence.Some? ==> t.lastSequence.value < sequence
    ensures var r := Reduce(t, draft, sequence);
            && (r.Ok? <==> IsAdmissible(draft.kind, draft.source, t.capability))
            && (r.Ok? ==>
                  && r.value.0.run == t.run && r.value.0.provider == t.provider && r.value.0.capability == t.capability
                  && r.value.0.lastSequence == Some(sequence) && r.value.1.snapshot.capability == t.capability)
  {
    hide ApplyEvent;
    var e := EventOf(draft, sequence);
    RefusedExactly(t, e);
    if ApplyEvent(t, e).1.Applied? {
      AcceptedEventCounts(t, e);
      SnapshotFields(t);
      SnapshotFields(ApplyEvent(t, e).0);
    }
  }

  lemma SnapshotFields(t: State)
    ensures var s := SnapshotOf(t);
            s.run == t.run && s.provider == t.provider && s.capability == t.capability
              && s.lastSequence == t.lastSequence
  {
  }

  /** The draft belongs to the tracker's run, and shares place and provider with what is logged already. */
  ghost predicate Continues(db: Db, t: State, d: Draft, first: Draft) {
    && d.run == t.run && d.provider == t.provider
    && d.host == first.host && d.workspace == first.workspace && d.pane == first.pane
    && (t.run in db.runs ==>
          var e := Row(db, t.run, LogLength(db, t.run)).event;
          e.provider == d.provider && e.host == d.host && e.workspace == d.workspace && e.pane == d.pane)
  }

  /**
   Any batch from any tracker, whoever computed it and when: it commits exactly if the tracker has seen the whole
   log, the drafts continue it, there is room for them, and each may come from its source.
   */
  lemma CommitsExactly(db: Db, t: State, drafts: seq<Draft>)
    requires Consistent(db) && drafts != []
    ensures Commits(db, t, drafts) <==>
              && t.lastSequence == (if t.run in db.runs then Some(LogLength(db, t.run)) else Option.None)
              && HasRoomFor(db, t.run, |drafts|)
              && (forall i :: 0 <= i < |drafts| ==> Continues(db, t, drafts[i], drafts[0]))
              && (forall i :: 0 <= i < |drafts| ==> IsAdmissible(drafts[i].kind, drafts[i].source, t.capability))
  {
    hide Consistent, ReduceAll, Log, ApplyEvent, StartSequence, Continues, Row;
    SnapshotFields(t);
    if DraftsError(SnapshotOf(t), drafts[0], drafts).None? {
      assert forall i :: 0 <= i < |drafts| ==> DraftError(SnapshotOf(t), drafts[0], drafts[i]).None?;
      assert DraftError(SnapshotOf(t), drafts[0], drafts[0]).None?;
      forall i | 0 <= i < |drafts|
        ensures Continues(db, t, drafts[i], drafts[0]) <==> Continues(db, t, drafts[0], drafts[0]) {
        SamePlace(db, t, drafts[i], drafts[0]);
      }
      StartsExactly(db, t, drafts[0]);
      if t.lastSequence == (if t.run in db.runs then Some(LogLength(db, t.run)) else Option.None)
         && HasRoomFor(db, t.run, |drafts|) {
        ReducesExactly(t, drafts, LogLength(db, t.run) + 1, |drafts|);
        assert drafts[..|drafts|] == drafts;
        NothingBeyondLog(db, t.run, |drafts|);
      }
    } else {
      var i :| 0 <= i < |drafts| && DraftError(SnapshotOf(t), drafts[0], drafts[i]).Some?;
      DraftContinues(db, t, drafts[i], drafts[0]);
    }
  }

  lemma SamePlace(db: Db, t: State, d: Draft, first: Draft)
    requires d.run == t.run == first.run && d.provider == t.provider == first.provider
    requires d.host == first.host && d.workspace == first.workspace && d.pane == first.pane
    ensures Continues(db, t, d, first) <==> Continues(db, t, first, first)
  {
  }

  lemma DraftContinues(db: Db, t: State, d: Draft, first: Draft)
    ensures Continues(db, t, d, first) ==> DraftError(SnapshotOf(t), first, d).None?
  {
    SnapshotFields(t);
  }

  lemma StartsExactly(db: Db, t: State, first: Draft)
    requires Consistent(db) && first.run == t.run && first.provider == t.provider
    ensures var n := LogLength(db, t.run);
            && (StartSequence(db, SnapshotOf(t), first).Ok? <==>
                  && t.lastSequence == (if t.run in db.runs then Some(n) else Option.None)
                  && Continues(db, t, first, first))
            && (StartSequence(db, SnapshotOf(t), first).Ok? ==> StartSequence(db, SnapshotOf(t), first).value == n + 1)
  {
    hide Log;
    SnapshotFields(t);
    if t.run in db.runs {
      assert RunConsistent(db, t.run);
      assert RowConsistent(db, t.run, LogLength(db, t.run));
      LatestIsLast(db, t.run);
    }
  }

  /** A locked write commits exactly if it is acceptable. */
  lemma WritesExactly(db: Db, c: Context, kinds: seq<Kind>, source: Source, at: u64)
    requires Consistent(db) && HasItsContext(db, c)
    ensures Writes(db, c, Drafts(c, kinds, source, at)) <==> Accepts(db, c, kinds, source)
  {
    hide Consistent, ReduceAll, Log;
    var t, drafts := Start(db, c), Drafts(c, kinds, source, at);
    if kinds != [] {
      StartsAfterLog(db, c, DraftOf(c, kinds[0], source, at));
      assert DraftsError(SnapshotOf(t), drafts[0], drafts).None?;
      if LogLength(db, c.run) + 1 + |drafts| <= I64_MAX {
        ReducesExactly(t, drafts, LogLength(db, c.run) + 1, |drafts|);
        assert drafts[..|drafts|] == drafts;
        NothingBeyondLog(db, c.run, |drafts|);
      }
    }
  }

  lemma StartsAfterLog(db: Db, c: Context, draft: Draft)
    requires Consistent(db) && HasItsContext(db, c) && draft == DraftOf(c, draft.kind, draft.source, draft.observedAt)
    ensures var t := Start(db, c);
            && StartSequence(db, SnapshotOf(t), draft) == Ok(LogLength(db, c.run) + 1)
            && t.run == c.run && t.provider == c.provider && t.capability == CapabilityNow(db, c)
            && (t.lastSequence.Some? ==> t.lastSequence.value == LogLength(db, c.run))
  {
    hide Log;
    if c.run in db.runs {
      assert RunConsistent(db, c.run);
      assert RowConsistent(db, c.run, LogLength(db, c.run));
      LatestIsLast(db, c.run);
    }
  }

  lemma NothingBeyondLog(db: Db, run: RunId, count: nat)
    requires Consistent(db)
    ensures !Occupied(db, run, LogLength(db, run) + 1, count)
  {
    if run in db.runs {
      assert RunConsistent(db, run);
    }
  }

  /** What the log of the run gains: these kinds in order, with this source and time and the numbers that follow. */
  ghost predicate LogGains(log: seq<Update>, later: seq<Update>, c: Context, kinds: seq<Kind>, source: Source,
                           at: u64) {
    && |later| == |log| + |kinds| <= I64_MAX && log <= later
    && forall i :: 0 <= i < |kinds| ==>
         later[|log| + i].event ==
         Event(c.host, c.workspace, c.run, c.pane, c.provider, |log| + 1 + i, at, source, kinds[i])
  }

  lemma UpdatesAreGained(log: seq<Update>, updates: seq<Update>, c: Context, kinds: seq<Kind>, source: Source, at: u64)
    requires |updates| == |kinds| && |log| + |kinds| <= I64_MAX
    requires forall i :: 0 <= i < |kinds| ==>
               updates[i].event == EventOf(Drafts(c, kinds, source, at)[i], |log| + 1 + i)
    ensures LogGains(log, log + updates, c, kinds, source, at)
  {
  }

  lemma WritesLogTheKinds(db: Db, c: Context, kinds: seq<Kind>, source: Source, at: u64)
    requires Consistent(db) && Writes(db, c, Drafts(c, kinds, source, at))
    ensures var drafts := Drafts(c, kinds, source, at);
            && LogGains(Log(db, c.run), Log(Written(db, c, drafts), c.run), c, kinds, source, at)
            && Log(Written(db, c, drafts), c.run) == Log(db, c.run) + NewUpdates(db, Start(db, c), drafts)
  {
    hide AppendBatch, Prepare, Consistent, LogGains, Log, Rehydrate;
    var drafts := Drafts(c, kinds, source, at);
    assert drafts[0].run == c.run;
    PreparedSequence(db, Start(db, c), drafts);
    CommittedBatchExtendsLog(db, Start(db, c), drafts, false);
    UpdatesAreGained(Log(db, c.run), NewUpdates(db, Start(db, c), drafts), c, kinds, source, at);
  }

  /**
   A provider's own questions are always heard: the first write of a run fixes what the provider can do, two
   providers besides leave room for an overlay, and no later write changes that.
   */
  lemma ProvidersMayAlwaysAsk(db: Db, c: Context, kinds: seq<Kind>, source: Source, at: u64)
    requires Consistent(db) && HasItsContext(db, c) && Writes(db, c, Drafts(c, kinds, source, at))
    ensures c.run !in db.runs ==> CapabilityNow(db, c).AcceptsProviderEvents()
    ensures c.run !in db.runs ==> (CapabilityNow(db, c).ProviderEventsWithOverlay? <==> c.provider in {Codex, Claude})
    ensures CapabilityNow(Written(db, c, Drafts(c, kinds, source, at)), c) == CapabilityNow(db, c)
  {
    hide Consistent, Log, ReduceAll, Row, DraftsError, StartSequence, InsertEvents, Occupied, FromSnapshot, New;
    var t, drafts := Start(db, c), Drafts(c, kinds, source, at);
    WritesExactly(db, c, kinds, source, at);
    StartsAfterLog(db, c, drafts[0]);
    PreparedSequence(db, t, drafts);
    ReducesExactly(t, drafts, LogLength(db, c.run) + 1, |drafts|);
    assert drafts[..|drafts|] == drafts;
    var updates := NewUpdates(db, t, drafts);
    assert Written(db, c, drafts).runs[c.run].latest == updates[|updates| - 1].snapshot;
  }

  // ---- single events

  /** A single committed event stores the tracker it was accepted by. */
  lemma SingleEventLands(db: Db, c: Context, kind: Kind, source: Source, at: u64)
    requires Consistent(db) && Writes(db, c, [DraftOf(c, kind, source, at)])
    ensures LogLength(db, c.run) < I64_MAX
    ensures var e := EventOf(DraftOf(c, kind, source, at), LogLength(db, c.run) + 1);
            && Refusal(Start(db, c), e).None?
            && Committed(Written(db, c, [DraftOf(c, kind, source, at)]), c) == SnapshotOf(Accept(Start(db, c), e))
            && c.run in Written(db, c, [DraftOf(c, kind, source, at)]).runs
  {
    hide Consistent, Rehydrate, SnapshotOf, Accept, Refusal, StartSequence, InsertEvents;
    var drafts := [DraftOf(c, kind, source, at)];
    var t := Start(db, c);
    PreparedSequence(db, t, drafts);
    assert drafts[..0] == [];
    assert ReduceAll(t, drafts[..0], LogLength(db, c.run) + 1) == Ok((t, []));
  }

  /** A health report sets the stored health and never enters or leaves the exited state. */
  lemma HealthReportLands(db: Db, c: Context, health: Health, at: u64)
    requires Consistent(db) && Writes(db, c, [DraftOf(c, HealthChanged(health), Source.IntegrationSupervisor, at)])
    ensures var db' := Written(db, c, [DraftOf(c, HealthChanged(health), Source.IntegrationSupervisor, at)]);
            && c.run in db'.runs && db'.runs[c.run].latest.health == health
            && IsExited(db', c.run) == IsExited(db, c.run)
  {
    hide Consistent, AppendBatch, Prepare;
    SingleEventLands(db, c, HealthChanged(health), Source.IntegrationSupervisor, at);
  }

  lemma ExitReportLands(db: Db, c: Context, code: Option<int>, at: u64)
    requires Consistent(db) && Writes(db, c, [DraftOf(c, Kind.Exited(code), Source.ProcessSupervisor, at)])
    ensures IsExited(Written(db, c, [DraftOf(c, Kind.Exited(code), Source.ProcessSupervisor, at)]), c.run)
  {
    hide Consistent, AppendBatch, Prepare;
    SingleEventLands(db, c, Kind.Exited(code), Source.ProcessSupervisor, at);
  }

  lemma UnknownReportLands(db: Db, c: Context, at: u64)
    requires Consistent(db) && Writes(db, c, [DraftOf(c, Kind.StateUnknown, Source.ProcessSupervisor, at)])
    ensures Committed(Written(db, c, [DraftOf(c, Kind.StateUnknown, Source.ProcessSupervisor, at)]), c).state
            == AgentState.Unknown
  {
    hide Consistent, AppendBatch, Prepare;
    SingleEventLands(db, c, Kind.StateUnknown, Source.ProcessSupervisor, at);
  }

  /** The log of the run accepts one more event from this context. */
  ghost predicate HasRoom(db: Db, c: Context) {
    && c.run in db.runs && LogLength(db, c.run) + 2 <= I64_MAX
    && HasContext(Row(db, c.run, LogLength(db, c.run)).event, c)
    && db.runs[c.run].provider == c.provider
  }

  lemma AcceptKeepsIdentity(t: State, e: Event)
    ensures Accept(t, e).run == t.run && Accept(t, e).provider == t.provider
    ensures Accept(t, e).lastSequence == Some(e.sequence)
  {
  }

  lemma ProviderEventsCommit(db: Db, c: Context, kind: Kind, at: u64)
    requires Consistent(db) && HasRoom(db, c)
    requires ValidSource(Source.ProviderIntegration, kind)
    requires kind.NeedsInput? ==> db.runs[c.run].latest.capability.AcceptsProviderEvents()
    ensures Writes(db, c, [DraftOf(c, kind, Source.ProviderIntegration, at)])
  {
    hide Log, ApplyKind;
    var d, t, n := DraftOf(c, kind, Source.ProviderIntegration, at), Start(db, c), LogLength(db, c.run) + 1;
    assert RunConsistent(db, c.run);
    LatestIsLast(db, c.run);
    assert StartSequence(db, SnapshotOf(t), d) == Ok(n);
    assert [d][..0] == [] && [d][1..] == [];
    assert DraftError(SnapshotOf(t), d, d).None? && DraftsError(SnapshotOf(t), d, []).None?;
    assert DraftsError(SnapshotOf(t), d, [d]).None?;
    assert ReduceAll(t, [d][..0], n) == Ok((t, []));
    assert Refusal(t, EventOf(d, n)).None?;
    AcceptKeepsIdentity(t, EventOf(d, n));
    assert Reduce(t, d, n).Ok?;
  }

  /** An exit clears the suppression of completions, and whatever sets it leaves the exited state. */
  lemma {:induction false} ExitClearsSuppression(run: RunId, provider: Provider, capability: Capability,
                                                 updates: seq<Update>)
    ensures var t := Fold(New(run, provider, capability), updates);
            t.base == BaseState.Exited ==> !t.suppressed
  {
    hide Refusal, SnapshotOf;
    if updates != [] {
      ExitClearsSuppression(run, provider, capability, updates[..|updates| - 1]);
    }
  }

  lemma ExitedIsNotSuppressed(db: Db, run: RunId)
    requires Consistent(db) && Replayed(db) && IsExited(db, run)
    ensures !db.runs[run].latest.suppressed
  {
    hide Fold;
    var row := db.runs[run];
    assert RunReplayed(db, run);
    LatestIsLast(db, run);
    assert Log(db, run)[..LogLength(db, run)] == Log(db, run);
    ExitClearsSuppression(run, row.provider, row.latest.capability, Log(db, run));
  }

  /**
   Exited is not terminal in the log: while the row is still active, every provider event commits
   after the exit, and the run shows as live again exactly if it is not a health report.
   */
  lemma LateEventsReviveExactly(db: Db, c: Context, kind: Kind, at: u64)
    requires Consistent(db) && Replayed(db) && HasRoom(db, c) && IsExited(db, c.run)
    requires ValidSource(Source.ProviderIntegration, kind)
    requires kind.NeedsInput? ==> db.runs[c.run].latest.capability.AcceptsProviderEvents()
    ensures var d := [DraftOf(c, kind, Source.ProviderIntegration, at)];
            Writes(db, c, d) && (IsExited(Written(db, c, d), c.run) <==> kind.HealthChanged?)
  {
    hide Consistent, Replayed, AppendBatch, Prepare;
    ExitedIsNotSuppressed(db, c.run);
    ProviderEventsCommit(db, c, kind, at);
    SingleEventLands(db, c, kind, Source.ProviderIntegration, at);
  }

  function ExitDraft(c: Context, at: u64): Draft {
    DraftOf(c, Kind.Exited(Option.None), Source.ProcessSupervisor, at)
  }

  function WorkingDraft(c: Context, at: u64): Draft {
    DraftOf(c, Kind.Working, Source.ProviderIntegration, at)
  }

  lemma FirstExitCommits(c: Context, at: u64)
    ensures Writes(Db(map[], map[]), c, [ExitDraft(c, at)])
  {
    var t, d := Start(Db(map[], map[]), c), ExitDraft(c, at);
    assert [d][..0] == [] && [d][1..] == [];
    assert DraftsError(SnapshotOf(t), d, []).None? && DraftsError(SnapshotOf(t), d, [d]).None?;
    assert ReduceAll(t, [d][..0], 1) == Ok((t, []));
    assert Reduce(t, d, 1).Ok?;
  }

  /** The log that holds only this run's exit. */
  function ExitLog(c: Context, at: u64): Db {
    Written(Db(map[], map[]), c, [ExitDraft(c, at)])
  }

  lemma ExitLogHasRoom(c: Context, at: u64)
    ensures var db := ExitLog(c, at);
            Consistent(db) && Replayed(db) && HasRoom(db, c) && IsExited(db, c.run)
  {
    hide Consistent, Replayed, AppendBatch, Prepare;
    var empty, d := Db(map[], map[]), [ExitDraft(c, at)];
    EmptyIsSound(empty);
    FirstExitCommits(c, at);
    ExitReportLands(empty, c, Option.None, at);
    CommittedBatchExtendsLog(empty, Start(empty, c), d, false);
    CommitTouchesOneRun(empty, Start(empty, c), d, false);
    TransientWriteKeepsReplay(empty, d, CapabilityOf(c.provider), false);
    var db := ExitLog(c, at);
    assert Log(empty, c.run) == [];
    assert |Log(db, c.run)| == 1 == LogLength(db, c.run);
    LastUpdate(empty, db, c, d);
    assert Log(db, c.run)[0] == Row(db, c.run, 1);
  }

  /**
   A history in which it happens, for any run: its only event so far is the exit, and a late hook shows it
   working.
   */
  lemma LateHookRevives(c: Context, exitedAt: u64, at: u64)
    ensures var db, late := ExitLog(c, exitedAt), [WorkingDraft(c, at)];
            && Writes(Db(map[], map[]), c, [ExitDraft(c, exitedAt)]) && IsExited(db, c.run)
            && Writes(db, c, late) && Committed(Written(db, c, late), c).state == AgentState.Working
  {
    hide Consistent, Replayed, AppendBatch, Prepare, HasRoom;
    var db := ExitLog(c, exitedAt);
    FirstExitCommits(c, exitedAt);
    ExitLogHasRoom(c, exitedAt);
    ProviderEventsCommit(db, c, Kind.Working, at);
    SingleEventLands(db, c, Kind.Working, Source.ProviderIntegration, at);
  }

  // ---- integration health

  function DesiredHealth(row: Option<Freshness.Row>, now: u64): Health {
    if row.Some? && !row.value.gap && 0 <= now - row.value.lastSeen <= HEALTH_STALE_AFTER
    then Healthy(row.value.version) else Stale
  }

  /** A delivery was seen at most ten seconds ago, and none is missing. */
  predicate IsFresh(row: Option<Freshness.Row>, now: u64) {
    row.Some? && !row.value.gap && row.value.lastSeen <= now <= row.value.lastSeen + HEALTH_STALE_AFTER
  }

  /**
   The integration counts as healthy exactly while its deliveries are fresh, with the version they carry. A run that
   was never healthy stays as it is reported, and a missing delivery always shows.
   */
  predicate IsRightHealth(health: Health, known: bool, row: Option<Freshness.Row>, now: u64) {
    && (IsFresh(row, now) ==> health == Healthy(row.value.version))
    && (!IsFresh(row, now) && (known || row.Some?) ==> !health.Healthy?)
    && (row.Some? && row.value.gap ==> health == Stale)
  }

  /**
   A correction is due exactly when fresh deliveries are not shown as healthy, when they are no longer fresh and
   still are, or when a missing one does not show.
   */
  lemma DueExactly(health: Health, known: bool, row: Option<Freshness.Row>, now: u64)
    ensures HealthIsDue(health, known, row, now) <==>
              if IsFresh(row, now) then health != Healthy(row.value.version)
              else (known || row.Some?) && (health.Healthy? || (row.Some? && row.value.gap && health != Stale))
  {
  }

  lemma UndueHealthIsRight(health: Health, known: bool, row: Option<Freshness.Row>, now: u64)
    ensures !HealthIsDue(health, known, row, now) ==> IsRightHealth(health, known, row, now)
    ensures health == DesiredHealth(row, now) && row.Some? ==> IsRightHealth(health, known, row, now)
  {
  }

  /** The stored health has to be corrected. */
  predicate HealthIsDue(health: Health, known: bool, row: Option<Freshness.Row>, now: u64) {
    var desired := DesiredHealth(row, now);
    && health != desired
    && (known || row.Some?)
    && !(!health.Healthy? && desired == Stale && !(row.Some? && row.value.gap) && health != Stale)
  }
}

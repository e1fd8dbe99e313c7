/**
 The event store as the program runs it: tables updated by one transaction at a time, a
 tracker handed in by reference, a bounded retry loop, and a row-by-row replay.
 */
module EventStore {
  import opened Prelude
  import opened AgentModel
  import opened Tracker
  import opened EventLog
  import opened EventHistory
  import opened EventPaging

  const MAX_CONCURRENT_RELOADS := 8

  /** A batch that another process commits, from a tracker rehydrated at that moment. */
  datatype Rival = Rival(drafts: seq<Draft>, capability: Capability, fileFault: bool)

  /** Nobody else writes. */
  predicate Undisturbed(rivals: seq<seq<Rival>>) {
    forall i :: 0 <= i < |rivals| ==> rivals[i] == []
  }

  /** The tables after these batches, each from a tracker rehydrated just before it. */
  function AfterRivals(db: Db, rivals: seq<Rival>): Db {
    if rivals == [] then db
    else
      var now, rival := AfterRivals(db, rivals[..|rivals| - 1]), rivals[|rivals| - 1];
      if rival.drafts == [] then now
      else
        var first := rival.drafts[0];
        AppendBatch(now, Rehydrate(now, first.run, first.provider, rival.capability), rival.drafts, rival.fileFault).db
  }

  function Concat(groups: seq<seq<Rival>>): seq<Rival> {
    if groups == [] then [] else Concat(groups[..|groups| - 1]) + groups[|groups| - 1]
  }

  lemma {:induction false} RivalsInTurn(db: Db, earlier: seq<Rival>, later: seq<Rival>)
    ensures AfterRivals(db, earlier + later) == AfterRivals(AfterRivals(db, earlier), later)
  {
    if later == [] {
      assert earlier + later == earlier;
    } else {
      var n := |later| - 1;
      assert (earlier + later)[..|earlier + later| - 1] == earlier + later[..n];
      RivalsInTurn(db, earlier, later[..n]);
    }
  }

  lemma NobodyChangesNothing(db: Db)
    ensures AfterRivals(db, []) == db
  {
  }

  lemma CommittedIsNotStale(db: Db, t: State, drafts: seq<Draft>, fileFault: bool)
    requires Commits(db, t, drafts)
    ensures AppendBatch(db, t, drafts, fileFault).result.Err? ==>
              !AppendBatch(db, t, drafts, fileFault).result.error.StaleTracker?
  {
    hide Prepare;
  }

  lemma NoRivalsYet(db: Db, rivals: seq<seq<Rival>>)
    ensures AfterRivals(db, Concat(rivals[..0])) == db
  {
  }

  lemma RivalsOfOneMore(db: Db, rivals: seq<seq<Rival>>, attempt: nat)
    requires attempt < |rivals|
    ensures AfterRivals(db, Concat(rivals[..attempt + 1]))
         == AfterRivals(AfterRivals(db, Concat(rivals[..attempt])), rivals[attempt])
  {
    assert rivals[..attempt + 1][..attempt] == rivals[..attempt];
    RivalsInTurn(db, Concat(rivals[..attempt]), rivals[attempt]);
  }

  class AgentEventStore {
    var runs: map<RunId, RunRow>
    var events: map<(RunId, int), Update>

    function Contents(): Db
      reads this
    {
      Db(runs, events)
    }

    constructor ()
      ensures Contents() == Db(map[], map[]) && Consistent(Contents())
    {
      runs, events := map[], map[];
    }

    /** Applies an ordered group of drafts in one transaction, or changes nothing. */
    method Append(tracker: AgentStatusTracker, drafts: seq<Draft>, fileFault: bool)
      returns (r: Result<seq<Update>, Error>)
      modifies this, tracker
      ensures Outcome(Contents(), tracker.Value(), r)
              == AppendBatch(old(Contents()), old(tracker.Value()), drafts, fileFault)
    {
      hide StartSequence, ReduceAll, DraftsError, SnapshotOf, Occupied, InsertEvents;
      if drafts == [] {
        return Ok([]);
      }
      var first, current := drafts[0], SnapshotOf(tracker.Value());
      var bad := CheckDrafts(current, drafts);
      if bad.Some? {
        return Err(bad.value);
      }
      var start := StartSequence(Contents(), current, first);
      if start.Err? {
        return Err(start.error);
      }
      var sequence := start.value;
      if sequence < 0 || sequence + |drafts| > I64_MAX {
        return Err(SequenceExhausted(first.run));
      }
      var candidate := new AgentStatusTracker.Of(tracker.Value());
      var reduced := ReduceDrafts(candidate, drafts, sequence);
      if reduced.Err? {
        return Err(reduced.error);
      }
      var updates := reduced.value;
      var staged := StageEvents(first.run, updates, sequence);
      if staged.None? {
        return Err(Sqlite);
      }
      runs := runs[first.run := RunRow(first.provider, sequence + |updates|, updates[|updates| - 1].snapshot)];
      events := staged.value;
      if fileFault {
        return Err(FileProtection);
      }
      tracker.Assign(candidate.Value());
      return Ok(updates);
    }

    method CheckDrafts(current: Snapshot, drafts: seq<Draft>) returns (bad: Option<Error>)
      requires drafts != []
      ensures bad == DraftsError(current, drafts[0], drafts)
    {
      var i := 0;
      while i < |drafts|
        invariant 0 <= i <= |drafts|
        invariant DraftsError(current, drafts[0], drafts) == DraftsError(current, drafts[0], drafts[i..])
      {
        bad := DraftError(current, drafts[0], drafts[i]);
        if bad.Some? {
          return;
        }
        i := i + 1;
      }
      bad := Option.None;
    }

    /** Advances the candidate over every draft; it stops at the first refused one. */
    method ReduceDrafts(candidate: AgentStatusTracker, drafts: seq<Draft>, sequence: int)
      returns (r: Result<seq<Update>, Error>)
      requires 0 <= sequence && sequence + |drafts| <= I64_MAX
      modifies candidate
      ensures match ReduceAll(old(candidate.Value()), drafts, sequence)
              case Err(e) => r == Err(e)
              case Ok((t, updates)) => r == Ok(updates) && candidate.Value() == t
    {
      hide ApplyEvent;
      ghost var t := candidate.Value();
      var updates := [];
      for i := 0 to |drafts|
        invariant ReduceAll(t, drafts[..i], sequence) == Ok((candidate.Value(), updates))
      {
        assert drafts[..i + 1][..i] == drafts[..i];
        var draft := drafts[i];
        var event := EventOf(draft, sequence + i);
        var disposition := candidate.Apply(event);
        if disposition.Rejected? {
          FirstFailureStays(t, drafts, sequence, i + 1);
          return Err(TrackerRejected(disposition.reason));
        }
        var snapshot := disposition.snapshot;
        var bad := SnapshotError(draft.run, draft.provider, snapshot);
        if bad.Some? {
          FirstFailureStays(t, drafts, sequence, i + 1);
          return Err(bad.value);
        }
        if snapshot.lastSequence != Some(event.sequence) {
          FirstFailureStays(t, drafts, sequence, i + 1);
          return Err(CorruptData);
        }
        updates := updates + [Update(event, snapshot)];
      }
      assert drafts[..|drafts|] == drafts;
      r := Ok(updates);
    }

    /** Inserts every new row, or nothing when one of them meets an existing key. */
    method StageEvents(run: RunId, updates: seq<Update>, sequence: int)
      returns (staged: Option<map<(RunId, int), Update>>)
      ensures staged == if Occupied(Contents(), run, sequence, |updates|) then Option.None
                        else Some(InsertEvents(events, run, updates, sequence))
    {
      var rows := events;
      for i := 0 to |updates|
        invariant rows == InsertEvents(events, run, updates[..i], sequence)
        invariant forall k :: sequence <= k < sequence + i ==> (run, k) !in events
      {
        if (run, sequence + i) in rows {
          assert (run, sequence + i) in events;
          return Option.None;
        }
        assert updates[..i + 1][..i] == updates[..i];
        rows := rows[(run, sequence + i) := updates[i]];
      }
      assert updates[..|updates|] == updates;
      return Some(rows);
    }

    /** Batches that other processes commit while this one is between two transactions. */
    method LetOthersWrite(rivals: seq<Rival>)
      requires Consistent(Contents())
      modifies this
      ensures Consistent(Contents()) && Extends(old(Contents()), Contents())
      ensures Contents() == AfterRivals(old(Contents()), rivals)
    {
      for i := 0 to |rivals|
        invariant Consistent(Contents()) && Extends(old(Contents()), Contents())
        invariant Contents() == AfterRivals(old(Contents()), rivals[..i])
      {
        var rival := rivals[i];
        assert rivals[..i + 1][..i] == rivals[..i];
        if rival.drafts != [] {
          var first := rival.drafts[0];
          ghost var before := Contents();
          var t := Rehydrate(Contents(), first.run, first.provider, rival.capability);
          var tracker := new AgentStatusTracker.Of(t);
          var ignored := Append(tracker, rival.drafts, rival.fileFault);
          BatchOnlyExtends(before, t, rival.drafts, rival.fileFault);
          ExtendsTransitively(old(Contents()), before, Contents());
        }
      }
      assert rivals[..|rivals|] == rivals;
    }

    /**
     A one-shot append: rehydrate, let whatever happens happen, try to commit, and start
     over when somebody else was faster. A commit was computed from the state it went
     in on, a refusal stands in that state too, and giving up means that at least eight
     other updates went in.
     */
    method AppendTransient(drafts: seq<Draft>, capability: Capability, fileFault: bool, rivals: seq<seq<Rival>>)
      returns (r: Result<seq<Update>, Error>, ghost before: Db, ghost attempts: nat)
      requires Consistent(Contents()) && |rivals| == MAX_CONCURRENT_RELOADS
      modifies this
      ensures Consistent(Contents()) && Extends(old(Contents()), Contents())
      ensures Consistent(before) && Extends(old(Contents()), before)
      ensures drafts == [] ==> r == Ok([]) && Contents() == before == old(Contents())
      ensures Undisturbed(rivals) ==> before == old(Contents())
      ensures drafts != [] ==> 1 <= attempts <= MAX_CONCURRENT_RELOADS
      ensures attempts <= |rivals| && before == AfterRivals(old(Contents()), Concat(rivals[..attempts]))
      ensures drafts != [] ==>
                var t := Rehydrate(before, drafts[0].run, drafts[0].provider, capability);
                var out := AppendBatch(before, t, drafts, fileFault);
                || (Commits(before, t, drafts) && Contents() == out.db && r == out.result)
                || (Contents() == before && r.Err? && !r.error.StaleTracker? && !Commits(before, t, drafts))
                || (Contents() == before && r.Err? && r.error.StaleTracker? &&
                    LogLength(before, drafts[0].run) >=
                      LogLength(old(Contents()), drafts[0].run) + MAX_CONCURRENT_RELOADS)
    {
      hide AppendBatch, Prepare, Consistent, LogLength, Log, AfterRivals;
      NoRivalsYet(Contents(), rivals);
      before, attempts := Contents(), 0;
      if drafts == [] {
        return Ok([]), before, 0;
      }
      var first := drafts[0];
      for attempt := 0 to MAX_CONCURRENT_RELOADS
        invariant Consistent(Contents()) && Extends(old(Contents()), Contents())
        invariant LogLength(Contents(), first.run) >= LogLength(old(Contents()), first.run) + attempt
        invariant Undisturbed(rivals) ==> attempt == 0 && Contents() == old(Contents())
        invariant attempts == attempt && Contents() == AfterRivals(old(Contents()), Concat(rivals[..attempt]))
      {
        r, before := Attempt(drafts, capability, fileFault, rivals[attempt]);
        RivalsOfOneMore(old(Contents()), rivals, attempt);
        ExtendsTransitively(old(Contents()), before, Contents());
        attempts := attempt + 1;
        if r.Ok? || !r.error.StaleTracker? {
          return r, before, attempts;
        }
      }
      before := Contents();
      var latest := ReadSnapshot(Contents(), first.run);
      DecodesWhenConsistent(Contents(), first.run);
      r := Err(StaleTracker(if latest.value.Some? then latest.value.value.lastSequence else Option.None, Option.None));
    }

    /** One attempt: a tracker read before others write, and a commit tried afterwards, in the tables `before`. */
    method Attempt(drafts: seq<Draft>, capability: Capability, fileFault: bool, rivals: seq<Rival>)
      returns (r: Result<seq<Update>, Error>, ghost before: Db)
      requires Consistent(Contents()) && drafts != []
      modifies this
      ensures Consistent(Contents()) && Consistent(before)
      ensures before == AfterRivals(old(Contents()), rivals) && Extends(old(Contents()), before)
      ensures Extends(before, Contents())
      ensures var t := Rehydrate(before, drafts[0].run, drafts[0].provider, capability);
              var out := AppendBatch(before, t, drafts, fileFault);
              || (Commits(before, t, drafts) && Contents() == out.db && r == out.result
                  && (r.Err? ==> !r.error.StaleTracker?))
              || (Contents() == before && r.Err? && !r.error.StaleTracker? && !Commits(before, t, drafts))
              || (Contents() == before && r.Err? && r.error.StaleTracker? && rivals != [] &&
                  LogLength(before, drafts[0].run) > LogLength(old(Contents()), drafts[0].run))
    {
      hide AppendBatch, Prepare, Consistent, LogLength, Log, AfterRivals;
      var first := drafts[0];
      ghost var read := Contents();
      var stored := ReadSnapshot(Contents(), first.run);
      DecodesWhenConsistent(read, first.run);
      var t := if stored.value.Some? then FromSnapshot(stored.value.value)
        else New(first.run, first.provider, capability);
      assert t == Rehydrate(read, first.run, first.provider, capability);
      LetOthersWrite(rivals);
      before := Contents();
      var tracker := new AgentStatusTracker.Of(t);
      r := Append(tracker, drafts, fileFault);
      BatchOnlyExtends(before, t, drafts, fileFault);
      if Commits(before, t, drafts) {
        StaleReadersCannotCommit(read, before, drafts, capability);
        CommittedIsNotStale(before, t, drafts, fileFault);
      } else {
        RefusedBatchChangesNothing(before, t, drafts, fileFault);
        if r.error.StaleTracker? {
          StaleMeansOvertaken(read, before, drafts, capability, fileFault);
          NobodyChangesNothing(read);
        } else {
          RefusalStands(read, before, drafts, capability, fileFault);
        }
      }
    }

    /** Replays committed rows in order, re-checking each one. */
    method Follow(run: RunId, sequence: u64, limit: nat) returns (r: Result<seq<Update>, Error>)
      ensures r == FollowAfter(Contents(), run, sequence, limit)
    {
      if limit == 0 || sequence > I64_MAX {
        return Ok([]);
      }
      var rows := RowsAfter(Contents(), run, sequence, Min(limit, MAX_FOLLOW_LIMIT));
      var updates := [];
      for i := 0 to |rows|
        invariant |updates| == i
        invariant forall j :: 0 <= j < i ==> RowIsSound(run, rows[j]) && updates[j] == rows[j].1
      {
        if !RowIsSound(run, rows[i]) {
          return Err(CorruptData);
        }
        updates := updates + [rows[i].1];
      }
      assert updates == seq(|rows|, i requires 0 <= i < |rows| => rows[i].1);
      r := Ok(updates);
    }
  }

  lemma {:induction false} FirstFailureStays(t: State, drafts: seq<Draft>, sequence: int, i: nat)
    requires 0 <= sequence && sequence + |drafts| <= I64_MAX && i <= |drafts|
    requires ReduceAll(t, drafts[..i], sequence).Err?
    ensures ReduceAll(t, drafts, sequence) == ReduceAll(t, drafts[..i], sequence)
  {
    if i < |drafts| {
      var n := |drafts| - 1;
      assert drafts[..n][..i] == drafts[..i];
      FirstFailureStays(t, drafts[..n], sequence, i);
    } else {
      assert drafts[..i] == drafts;
    }
  }

  lemma ExtendsTransitively(a: Db, b: Db, c: Db)
    requires Extends(a, b) && Extends(b, c)
    ensures Extends(a, c)
  {
    forall run ensures Log(a, run) <= Log(c, run) {
      assert Log(a, run) <= Log(b, run) <= Log(c, run);
    }
  }

  lemma DecodesWhenConsistent(db: Db, run: RunId)
    requires Consistent(db)
    ensures ReadSnapshot(db, run) == Ok(if run in db.runs then Some(db.runs[run].latest) else Option.None)
  {
    if run in db.runs {
      LatestIsLast(db, run);
    }
  }

  /** Rehydrating again would give the same tracker, if nothing has been committed for the run since. */
  lemma SameLengthSameTracker(read: Db, now: Db, run: RunId, provider: Provider, capability: Capability)
    requires Consistent(read) && Consistent(now) && Extends(read, now) && LogLength(now, run) == LogLength(read, run)
    ensures Rehydrate(read, run, provider, capability) == Rehydrate(now, run, provider, capability)
  {
    hide Consistent, Log;
    if run in read.runs {
      LatestIsLast(read, run);
    }
    if run in now.runs {
      LatestIsLast(now, run);
    }
    assert Log(read, run) <= Log(now, run);
    NoLogNoRun(read, run);
    NoLogNoRun(now, run);
  }

  lemma NoLogNoRun(db: Db, run: RunId)
    requires Consistent(db)
    ensures LogLength(db, run) == 0 <==> run !in db.runs
    ensures run in db.runs ==> Log(db, run)[0].event.provider == db.runs[run].provider
  {
    if run in db.runs {
      assert RunConsistent(db, run);
      assert RowConsistent(db, run, 1);
    }
  }

  /** A batch refused for another reason than staleness would be refused from the latest state as well. */
  lemma RefusalStands(read: Db, now: Db, drafts: seq<Draft>, capability: Capability, fileFault: bool)
    requires Consistent(read) && Consistent(now) && Extends(read, now) && drafts != []
    requires var t := Rehydrate(read, drafts[0].run, drafts[0].provider, capability);
             var r := AppendBatch(now, t, drafts, fileFault).result;
             !Commits(now, t, drafts) && r.Err? && !r.error.StaleTracker?
    ensures !Commits(now, Rehydrate(now, drafts[0].run, drafts[0].provider, capability), drafts)
  {
    hide ReduceAll, Occupied, InsertEvents, Consistent, Log;
    var run, provider := drafts[0].run, drafts[0].provider;
    var t, u := Rehydrate(read, run, provider, capability), Rehydrate(now, run, provider, capability);
    if LogLength(now, run) == LogLength(read, run) {
      SameLengthSameTracker(read, now, run, provider, capability);
    } else if Commits(now, u, drafts) {
      assert Log(read, run) <= Log(now, run);
      NoLogNoRun(read, run);
      NoLogNoRun(now, run);
      LatestIsLast(now, run);
      if run in read.runs {
        LatestIsLast(read, run);
      }
    }
  }

  /** A stale answer comes from a tracker that missed at least one committed event. */
  lemma StaleMeansOvertaken(read: Db, now: Db, drafts: seq<Draft>, capability: Capability, fileFault: bool)
    requires Consistent(read) && Consistent(now) && Extends(read, now) && drafts != []
    requires var r := AppendBatch(now, Rehydrate(read, drafts[0].run, drafts[0].provider, capability), drafts,
                                  fileFault).result;
             r.Err? && r.error.StaleTracker?
    ensures LogLength(now, drafts[0].run) > LogLength(read, drafts[0].run)
    ensures AppendBatch(now, Rehydrate(read, drafts[0].run, drafts[0].provider, capability), drafts, fileFault).db
            == now
  {
    hide ReduceAll, DraftsError, Occupied, InsertEvents, Consistent, Log;
    var run := drafts[0].run;
    var t := Rehydrate(read, run, drafts[0].provider, capability);
    assert StartSequence(now, SnapshotOf(t), drafts[0]).Err?;
    if run in now.runs {
      LatestIsLast(now, run);
    }
    if run in read.runs {
      LatestIsLast(read, run);
    }
    assert Log(read, run) <= Log(now, run);
  }
}

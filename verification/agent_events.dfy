/**
 The host's agent service: registering, binding, listing and reconciling runs over the run table
 and the event log. Every operation that writes holds the mutation lock, so nobody else does meanwhile;
 the helper may die between committing an exit and switching the run off.
 */
module AgentEvents {
  import opened Prelude
  import opened AgentModel
  import opened Tracker
  import opened EventLog
  import opened EventHistory
  import opened EventStore
  import opened AgentRuns
  import opened AgentWrites
  import Freshness

  const UNBOUND_GRACE := 60_000

  datatype Fault =
    | Runs(runError: RunError)
    | Log(logError: EventLog.Error)
    | NotActive
    | WrongContext
    | WrongFreshness
    | Undescribed
    | AssetCleanup
    | Died

  datatype Observation = Live | StateUnknown | Missing | Exited(code: Option<int>)

  datatype HostRun = HostRun(record: Record, snapshot: Snapshot)

  /** The clock, the failures of file operations by run, and whether the helper dies after committing an exit. */
  datatype Environment = Environment(now: u64, fileFault: bool, filesRemoved: bool, assetFault: RunId -> bool,
                                     dies: bool)

  datatype Operation =
    | Register(registry: Registry, context: Context, at: int)
    | Bind(registry: Registry, context: Context, binding: Binding)
    | Abort(context: Context)
    | AppendMany(context: Context, kinds: seq<Kind>)
    | ListRuns(workspace: Option<WorkspaceId>)
    | Reconcile(context: Context, binding: Binding, observation: Observation)
  {
    /** The run an operation is about. */
    function Subject(): Option<RunId> {
      if ListRuns? then Option.None else Some(this.context.run)
    }
  }

  function Quiet(): (rivals: seq<seq<Rival>>)
    ensures |rivals| == MAX_CONCURRENT_RELOADS && Undisturbed(rivals)
  {
    seq(MAX_CONCURRENT_RELOADS, _ => [])
  }

  /** A run as it is shown: only with a pane and a binding. */
  function Described(record: Record, snapshot: Snapshot): Result<HostRun, Fault> {
    if record.context.pane.None? || record.binding.None? then Err(Undescribed) else Ok(HostRun(record, snapshot))
  }

  class HostAgentEvents {
    const context: AgentContextStore
    const store: AgentEventStore
    var freshness: map<RunId, Freshness.Row>

    constructor (freshness: map<RunId, Freshness.Row>)
      ensures Valid() && fresh(context) && fresh(store)
      ensures Rows() == map[] && Db() == EventLog.Db(map[], map[]) && this.freshness == freshness
    {
      context := new AgentContextStore();
      store := new AgentEventStore();
      this.freshness := freshness;
    }

    function Rows(): AgentRuns.Rows
      reads this, context
    {
      context.rows
    }

    function Db(): EventLog.Db
      reads this, store
    {
      store.Contents()
    }

    ghost predicate Valid()
      reads this, context, store
    {
      Sound(Rows()) && Consistent(Db()) && ContextsAgree(Rows(), Db())
    }

    function FreshnessOf(run: RunId): Option<Freshness.Row>
      reads this
    {
      RowIn(freshness, run)
    }

    /** One locked write of at least one draft, all with the context of an active run. */
    method Write(c: Context, drafts: seq<Draft>, fileFault: bool) returns (r: Result<seq<Update>, Fault>)
      requires Valid() && drafts != [] && c.run in Rows() && Rows()[c.run].context == c && Rows()[c.run].active
      requires forall i :: 0 <= i < |drafts| ==> HasContext(EventOf(drafts[i], 1), c)
      modifies store
      ensures Valid() && Rows() == old(Rows()) && Follows(old(Rows()), old(Db()), Rows(), Db())
      ensures forall run :: run != c.run ==> SameRun(old(Db()), Db(), run)
      ensures r.Ok? <==> Writes(old(Db()), c, drafts) && !fileFault
      ensures r.Ok? ==> r.value == NewUpdates(old(Db()), Start(old(Db()), c), drafts)
      ensures Db() == if Writes(old(Db()), c, drafts) then Written(old(Db()), c, drafts) else old(Db())
    {
      hide AppendBatch, Consistent, Prepare, EventLog.Log, LogLength, Rehydrate;
      assert HasContext(EventOf(drafts[0], 1), c);
      var result, before, attempts := store.AppendTransient(drafts, CapabilityOf(c.provider), fileFault, Quiet());
      FaultyWriteIsTheSame(before, c, drafts, fileFault);
      if Writes(before, c, drafts) {
        WriteTouchesOneRun(Rows(), before, c, drafts);
        CommittedAnswers(before, c, drafts, fileFault);
      }
      return if result.Ok? then Ok(result.value) else Err(Log(result.error));
    }

    /**
     The events of one provider hook, or of the integration supervisor, for an active run. They are recorded exactly
     if the run is active under this context, each may come from this source and there is room for them; only
     a failure to protect the files is reported although they are.
     */
    method AppendManyLocked(c: Context, kinds: seq<Kind>, source: Source, at: u64, fileFault: bool)
      returns (r: Result<seq<Update>, Fault>)
      requires Valid()
      modifies store
      ensures Valid() && Rows() == old(Rows()) && Follows(old(Rows()), old(Db()), Rows(), Db())
      ensures forall run :: run != c.run ==> SameRun(old(Db()), Db(), run)
      ensures r.Ok? <==>
                IsActiveAs(Rows(), c) && (kinds == [] || (Accepts(old(Db()), c, kinds, source) && !fileFault))
      ensures if IsActiveAs(Rows(), c) && Accepts(old(Db()), c, kinds, source)
              then LogGains(EventLog.Log(old(Db()), c.run), EventLog.Log(Db(), c.run), c, kinds, source, at)
              else Db() == old(Db())
      ensures r.Ok? ==> EventLog.Log(Db(), c.run) == EventLog.Log(old(Db()), c.run) + r.value
      ensures IsActiveAs(Rows(), c) ==> Db() == AfterWrite(old(Db()), c, kinds, source, at)
    {
      hide Written, Writes, Consistent, NewUpdates, EventLog.Log, ContextsAgree, Accepts, LogGains;
      FollowsItself(Rows(), Db());
      NothingAccepted(Db(), c, source);
      assert EventLog.Log(Db(), c.run) + [] == EventLog.Log(Db(), c.run);
      var stored := context.Active(c.run);
      if stored.None? {
        return Err(NotActive);
      }
      if stored.value != c {
        return Err(WrongContext);
      }
      if kinds == [] {
        return Ok([]);
      }
      var drafts := Drafts(c, kinds, source, at);
      ActiveHasContext(Rows(), Db(), c);
      WritesExactly(Db(), c, kinds, source, at);
      if Writes(Db(), c, drafts) {
        WritesLogTheKinds(Db(), c, kinds, source, at);
      }
      r := Write(c, drafts, fileFault);
    }

    /** An event of the process supervisor for a run that has been looked up and found active. */
    method AppendSupervisor(c: Context, kind: Kind, environment: Environment) returns (r: Result<Update, Fault>)
      requires Valid() && context.Active(c.run) == Some(c)
      modifies store
      ensures Valid() && Rows() == old(Rows()) && Follows(old(Rows()), old(Db()), Rows(), Db())
      ensures r.Ok? <==> Accepts(old(Db()), c, [kind], Source.ProcessSupervisor) && !environment.fileFault
      ensures r.Ok? ==> r.value.snapshot == Committed(Db(), c)
      ensures Db() == AfterWrite(old(Db()), c, [kind], Source.ProcessSupervisor, environment.now)
    {
      hide Written, Writes, Consistent, NewUpdates, EventLog.Log, ContextsAgree, Follows, Committed, Accepts;
      var drafts := Drafts(c, [kind], Source.ProcessSupervisor, environment.now);
      ActiveHasContext(Rows(), Db(), c);
      WritesExactly(Db(), c, [kind], Source.ProcessSupervisor, environment.now);
      var written := Write(c, drafts, environment.fileFault);
      if written.Err? {
        return Err(written.error);
      }
      LastUpdateIsCommitted(old(Db()), c, drafts);
      return Ok(written.value[0]);
    }

    /** Brings the stored integration health of an active OpenCode run up to date with its deliveries. */
    method RefreshIntegrationHealth(run: RunId, now: u64, fileFault: bool) returns (r: Result<(), Fault>)
      requires Valid()
      modifies store
      ensures Valid() && Rows() == old(Rows()) && Follows(old(Rows()), old(Db()), Rows(), Db())
      ensures forall other :: other != run ==> SameRun(old(Db()), Db(), other)
      ensures IsExited(Db(), run) == IsExited(old(Db()), run)
      ensures r.Ok? <==> RefreshSucceeds(Rows(), old(Db()), run, FreshnessOf(run), now, fileFault)
      ensures Db() == Refreshed(Rows(), old(Db()), run, FreshnessOf(run), now)
      ensures !(run in Rows() && Rows()[run].active && Rows()[run].context.provider.OpenCode?)
              || IsExited(old(Db()), run) ==>
                r.Ok? && Db() == old(Db())
      ensures var row := FreshnessOf(run);
              run in Rows() && Rows()[run].active && Rows()[run].context.provider.OpenCode?
              && !IsExited(old(Db()), run) ==>
                if row.Some? && (row.value.lastSeen < 0 || row.value.cursor < 0 || !row.value.provider.OpenCode?
                                 || (row.value.version.Some? && row.value.version.value >= 0x1_0000_0000))
                then r.Err? && Db() == old(Db())
                else if !HealthIsDue(StoredHealth(old(Db()), run), run in old(Db()).runs, row, now)
                then r.Ok? && Db() == old(Db())
                else (r.Ok? <==> LogLength(old(Db()), run) + 1 < I64_MAX && !fileFault)
      ensures r.Ok? && Refreshable(Rows(), Db(), run) ==>
                && !HealthIsDue(StoredHealth(Db(), run), run in Db().runs, FreshnessOf(run), now)
                && IsRightHealth(StoredHealth(Db(), run), run in Db().runs, FreshnessOf(run), now)
    {
      hide Follows, Consistent, ContextsAgree, EventLog.Log, Written, HealthIsDue, DesiredHealth, Sound, IsRightHealth;
      FollowsItself(Rows(), Db());
      var active := context.Active(run);
      if active.None? || active.value.provider != OpenCode {
        return Ok(());
      }
      var c := active.value;
      KeysAreRuns(Rows(), run);
      var current := ReadSnapshot(Db(), run);
      DecodesWhenConsistent(Db(), run);
      if current.value.Some? && current.value.value.state == AgentState.Exited {
        return Ok(());
      }
      var row := FreshnessOf(run);
      if row.Some? && !Freshness.Readable(row.value) {
        return Err(Log(CorruptData));
      }
      if row.Some? && row.value.provider != c.provider {
        return Err(WrongFreshness);
      }
      var health := if current.value.Some? then current.value.value.health else Health.Unknown;
      UndueHealthIsRight(health, current.value.Some?, row, now);
      if !HealthIsDue(health, current.value.Some?, row, now) {
        return Ok(());
      }
      var desired := DesiredHealth(row, now);
      ReportNeedsRoom(Db(), c, HealthChanged(desired), Source.IntegrationSupervisor);
      OneDraft(c, HealthChanged(desired), Source.IntegrationSupervisor, now);
      ActiveHasContext(Rows(), Db(), c);
      WritesExactly(Db(), c, [HealthChanged(desired)], Source.IntegrationSupervisor, now);
      var appended := AppendManyLocked(c, [HealthChanged(desired)], Source.IntegrationSupervisor, now, fileFault);
      if HasRoomFor(old(Db()), run, 1) {
        HealthReportLands(old(Db()), c, desired, now);
        CorrectedHealthIsNotDue(row, now);
        UndueHealthIsRight(desired, true, row, now);
      }
      return if appended.Ok? then Ok(()) else Err(appended.error);
    }

    method Abort(c: Context) returns (r: Result<(), Fault>)
      requires Valid()
      modifies context
      ensures Valid() && Db() == old(Db()) && Follows(old(Rows()), old(Db()), Rows(), Db())
      ensures r.Ok? <==> old(context.Active(c.run)) == Some(c)
      ensures r.Ok? ==> Rows() == SwitchedOff(old(Rows()), {c.run})
      ensures r.Err? ==> Rows() == old(Rows())
    {
      hide Consistent, EventLog.Log;
      var stored := context.Active(c.run);
      if stored.None? {
        return Err(NotActive);
      }
      if stored.value != c {
        return Err(WrongContext);
      }
      var ignored := context.Deactivate(c);
      return Ok(());
    }

    /** The run with its committed snapshot. */
    method DescribeRun(record: Record) returns (r: Result<HostRun, Fault>)
      requires Valid()
      ensures r == Described(record, Committed(Db(), record.context))
    {
      var stored := ReadSnapshot(Db(), record.context.run);
      DecodesWhenConsistent(Db(), record.context.run);
      var snapshot := if stored.value.Some? then stored.value.value
                      else SnapshotOf(New(record.context.run, record.context.provider,
                                          CapabilityOf(record.context.provider)));
      r := Described(record, snapshot);
    }

    /** Nothing is shown for a run whose exit has been committed: it is switched off instead. */
    method ListOne(record: Record, environment: Environment) returns (r: Result<Option<HostRun>, Fault>)
      requires Valid() && record.context.run in Rows() && Rows()[record.context.run] == record && record.active
      requires record.binding.Some? && record.context.pane.Some?
      modifies context, store
      ensures Valid() && Follows(old(Rows()), old(Db()), Rows(), Db())
      ensures forall run :: run != record.context.run ==> SameRun(old(Db()), Db(), run)
      ensures r.Ok? && r.value.Some? ==>
                && r.value.value == HostRun(record, Committed(Db(), record.context))
                && !IsExited(Db(), record.context.run)
                && Rows() == old(Rows())
      ensures r.Ok? && r.value.None? ==>
                IsExited(Db(), record.context.run) && Rows() == SwitchedOff(old(Rows()), {record.context.run})
      ensures var run := record.context.run;
              r.Ok? <==>
                && RefreshSucceeds(old(Rows()), old(Db()), run, FreshnessOf(run), environment.now,
                                   environment.fileFault)
                && (IsExited(old(Db()), run) ==> !environment.assetFault(run))
    {
      hide Consistent, ContextsAgree, EventLog.Log, Sound, Evolves, SwitchedOff, SameRun, Refreshable, HealthIsDue,
        Follows;
      var c := record.context;
      var refreshed := RefreshIntegrationHealth(c.run, environment.now, environment.fileFault);
      if refreshed.Err? {
        return Err(refreshed.error);
      }
      var described := DescribeRun(record);
      if described.value.snapshot.state == AgentState.Exited {
        ghost var rows := Rows();
        var off := context.Deactivate(c);
        RowsMayEvolve(rows, Rows(), Db());
        FollowsTransitively(old(Rows()), old(Db()), rows, Db(), Rows(), Db());
        return if environment.assetFault(c.run) then Err(AssetCleanup) else Ok(Option.None);
      }
      return Ok(Some(described.value));
    }

    /**
     Whatever state the tables are in, a listed run is active, bound and shown with its committed snapshot,
     and that snapshot is never Exited; no active bound run is left out.
     */
    method ListRuns(workspace: Option<WorkspaceId>, environment: Environment) returns (r: Result<seq<HostRun>, Fault>)
      requires Valid()
      modifies context, store
      ensures Valid() && Follows(old(Rows()), old(Db()), Rows(), Db())
      ensures r.Ok? ==> forall run :: run in r.value ==> ShownRight(Rows(), Db(), workspace, run)
      ensures r.Ok? ==> forall run :: run in Rows() && Listed(Rows()[run], workspace) ==> Shown(r.value, Rows()[run])
      ensures r.Ok? ==> OldestFirst(RecordsOf(r.value)) && DistinctRuns(RecordsOf(r.value))
      ensures r.Ok? ==> NoneExited(Rows(), Db(), workspace)
      ensures CanList(old(Rows()), old(Db()), freshness, environment, workspace) ==> r.Ok?
    {
      hide Follows, Consistent, ContextsAgree, EventLog.Log, Sound, SameRun, Committed, Shown, ShownRight, Listed,
        IsExited, Evolves, Progress, CanList, CalmFrom, IsCalmRun, RefreshSucceeds, OldestFirst, DistinctRuns,
        Enumerates, InOrder, NoneExited, SwitchedOff;
      var listed := context.ActiveBound(workspace, Cutoff(environment), environment.filesRemoved);
      RowsMayEvolve(old(Rows()), Rows(), Db());
      CalmStarts(old(Rows()), Rows(), Db(), freshness, environment, workspace, listed);
      if listed.Err? {
        return Err(Runs(listed.error));
      }
      var records := listed.value;
      var runs: seq<HostRun> := [];
      ghost var scanned, calm := Rows(), CanList(old(Rows()), old(Db()), freshness, environment, workspace);
      ProgressStarts(scanned, Db(), workspace, records);
      for i := 0 to |records|
        invariant Valid() && Follows(old(Rows()), old(Db()), Rows(), Db())
        invariant Progress(scanned, Rows(), Db(), workspace, records, i, runs)
        invariant InOrder(records, i, runs)
        invariant calm ==> CalmFrom(Db(), freshness, environment, records, i)
      {
        ghost var rows, db := Rows(), Db();
        RecordIsOpen(scanned, rows, db, workspace, records, i, runs);
        CalmSucceeds(rows, db, freshness, environment, records, i);
        var one := ListOne(records[i], environment);
        FollowsTransitively(old(Rows()), old(Db()), rows, db, Rows(), Db());
        if one.Err? {
          return Err(one.error);
        }
        ProgressContinues(scanned, rows, db, Rows(), Db(), workspace, records, i, runs, one.value);
        CalmContinues(db, Db(), freshness, environment, records, i);
        StaysInOrder(records, i, runs, one.value);
        if one.value.Some? {
          runs := runs + [one.value.value];
        }
      }
      ProgressEnds(scanned, Rows(), Db(), workspace, records, runs);
      ListIsInOrder(records, runs);
      ShownAreNotExited(Rows(), Db(), workspace, runs);
      return Ok(runs);
    }

    /**
     What a process observation means for a registered run. An observed exit is committed first and
     deactivated afterwards.
     */
    method ReconcileRun(expected: Context, binding: Binding, observation: Observation, environment: Environment)
      returns (r: Result<HostRun, Fault>)
      requires Valid()
      modifies context, store
      ensures Valid() && Follows(old(Rows()), old(Db()), Rows(), Db())
      ensures !Observable(old(Rows()), expected, binding) ==> r.Err? && Rows() == old(Rows()) && Db() == old(Db())
      ensures Observable(old(Rows()), expected, binding) ==>
                Reconciled(expected, observation, environment, freshness, old(Rows()), old(Db()), Rows(), Db(), r.Ok?)
      ensures r.Ok? ==> r.value == HostRun(old(Rows())[expected.run], Committed(Db(), expected))
      ensures r.Ok? ==>
                if IsExited(old(Db()), expected.run) || observation.Missing? || observation.Exited?
                then IsExited(Db(), expected.run) && Rows() == SwitchedOff(old(Rows()), {expected.run})
                else !IsExited(Db(), expected.run) && Rows() == old(Rows())
      ensures r.Ok? && observation.StateUnknown? && !IsExited(old(Db()), expected.run) ==>
                r.value.snapshot.state == AgentState.Unknown
    {
      hide Consistent, ContextsAgree, EventLog.Log, Sound, Evolves, SwitchedOff, SameRun, Refreshable, HealthIsDue,
        Follows, Written, Writes, Accepts, RefreshSucceeds, Refreshed;
      FollowsItself(Rows(), Db());
      if expected.run !in Rows() {
        return Err(Runs(NotRegistered));
      }
      var record := Rows()[expected.run];
      if !record.active {
        return Err(Runs(RunIsStale));
      }
      if record.context != expected || record.binding != Some(binding) {
        return Err(WrongContext);
      }
      var refreshed := RefreshIntegrationHealth(expected.run, environment.now, environment.fileFault);
      if refreshed.Err? {
        return Err(refreshed.error);
      }
      ghost var db := Db();
      var described := DescribeRun(record);
      if described.Err? {
        return Err(described.error);
      }
      var existing := described.value;
      if existing.snapshot.state == AgentState.Exited {
        var off := context.Deactivate(expected);
        RowsMayEvolve(old(Rows()), Rows(), Db());
        FollowsTransitively(old(Rows()), old(Db()), old(Rows()), db, Rows(), Db());
        return Ok(existing);
      }
      r := ActOn(record, existing, observation, environment);
      FollowsTransitively(old(Rows()), old(Db()), old(Rows()), db, Rows(), Db());
    }

    /** What a process observation of a run that has not ended leads to. */
    method ActOn(record: Record, existing: HostRun, observation: Observation, environment: Environment)
      returns (r: Result<HostRun, Fault>)
      requires Valid() && context.Active(record.context.run) == Some(record.context)
      requires Rows()[record.context.run] == record && record.context.pane.Some? && record.binding.Some?
      requires existing == HostRun(record, Committed(Db(), record.context)) && !IsExited(Db(), record.context.run)
      modifies context, store
      ensures Valid() && Follows(old(Rows()), old(Db()), Rows(), Db())
      ensures Acted(record.context, observation, environment, old(Rows()), old(Db()), Rows(), Db(), r.Ok?)
      ensures r.Ok? ==> r.value == HostRun(record, Committed(Db(), record.context))
      ensures r.Ok? ==> (IsExited(Db(), record.context.run) <==> observation.Missing? || observation.Exited?)
      ensures r.Ok? && observation.StateUnknown? ==> r.value.snapshot.state == AgentState.Unknown
    {
      hide Consistent, ContextsAgree, EventLog.Log, Sound, Evolves, SwitchedOff, SameRun, Refreshable, HealthIsDue,
        Follows, Written, Writes, Accepts;
      var c := record.context;
      FollowsItself(Rows(), Db());
      match observation {
        case Live =>
          return Ok(existing);
        case StateUnknown =>
          if existing.snapshot.state == AgentState.Unknown {
            return Ok(existing);
          }
          ReportNeedsRoom(Db(), c, Kind.StateUnknown, Source.ProcessSupervisor);
          OneDraft(c, Kind.StateUnknown, Source.ProcessSupervisor, environment.now);
          ActiveHasContext(Rows(), Db(), c);
          WritesExactly(Db(), c, [Kind.StateUnknown], Source.ProcessSupervisor, environment.now);
          var update := AppendSupervisor(c, Kind.StateUnknown, environment);
          if update.Err? {
            return Err(update.error);
          }
          UnknownReportLands(old(Db()), c, environment.now);
          r := Described(record, update.value.snapshot);
        case Missing =>
          r := FinishExited(record, c, Option.None, environment);
        case Exited(code) =>
          r := FinishExited(record, c, code, environment);
      }
    }

    method FinishExited(record: Record, expected: Context, code: Option<int>, environment: Environment)
      returns (r: Result<HostRun, Fault>)
      requires Valid() && context.Active(expected.run) == Some(expected) && Rows()[expected.run] == record
      modifies context, store
      ensures Valid() && Follows(old(Rows()), old(Db()), Rows(), Db())
      ensures Db() == AfterWrite(old(Db()), expected, [Kind.Exited(code)], Source.ProcessSupervisor, environment.now)
      ensures var logged := HasRoomFor(old(Db()), expected.run, 1);
              var ended := logged && !environment.fileFault && !environment.dies;
              && (logged ==> IsExited(Db(), expected.run))
              && Rows() == (if ended then SwitchedOff(old(Rows()), {expected.run}) else old(Rows()))
              && (r.Ok? <==> ended && Described(record, Committed(Db(), expected)).Ok?
                             && !environment.assetFault(expected.run))
      ensures r.Ok? ==> r.value == HostRun(record, Committed(Db(), expected))
    {
      hide Consistent, ContextsAgree, EventLog.Log, Sound, Evolves, SwitchedOff, SameRun, Follows, Written, Writes,
        IsExited, Committed, Accepts;
      ReportNeedsRoom(Db(), expected, Kind.Exited(code), Source.ProcessSupervisor);
      OneDraft(expected, Kind.Exited(code), Source.ProcessSupervisor, environment.now);
      ActiveHasContext(Rows(), Db(), expected);
      WritesExactly(Db(), expected, [Kind.Exited(code)], Source.ProcessSupervisor, environment.now);
      var update := AppendSupervisor(expected, Kind.Exited(code), environment);
      ghost var db := Db();
      if HasRoomFor(old(Db()), expected.run, 1) {
        ExitReportLands(old(Db()), expected, code, environment.now);
      }
      if update.Err? {
        return Err(update.error);
      }
      if environment.dies {
        return Err(Died);
      }
      var off := context.Deactivate(expected);
      RowsMayEvolve(old(Rows()), Rows(), Db());
      FollowsTransitively(old(Rows()), old(Db()), old(Rows()), db, Rows(), Db());
      var run := Described(record, update.value.snapshot);
      if run.Ok? && environment.assetFault(expected.run) {
        return Err(AssetCleanup);
      }
      return run;
    }

    /** Any operation; on a run that is switched off, every one of them fails and changes nothing. */
    method Perform(operation: Operation, environment: Environment) returns (ok: bool)
      requires Valid()
      modifies context, store
      ensures Valid() && Follows(old(Rows()), old(Db()), Rows(), Db())
      ensures Did(operation, environment, freshness, old(Rows()), old(Db()), Rows(), Db(), ok)
      ensures operation.Subject().Some? && Inactive(old(Rows()), operation.Subject().value) ==>
                !ok && Rows() == old(Rows()) && Db() == old(Db())
    {
      hide Consistent, EventLog.Log, Sound, SwitchedOff, SameRun, Accepts, Refreshed, RefreshSucceeds, CanList,
        NoneExited, LogGains;
      match operation {
        case Register(registry, c, at) =>
          var r := context.Register(registry, c, at);
          ok := r.Ok?;
        case Bind(registry, c, binding) =>
          var r := context.Bind(registry, c, binding);
          ok := r.Ok?;
        case Abort(c) =>
          var r := Abort(c);
          ok := r.Ok?;
        case AppendMany(c, kinds) =>
          var r := AppendManyLocked(c, kinds, Source.ProviderIntegration, environment.now, environment.fileFault);
          ok := r.Ok?;
        case ListRuns(workspace) =>
          var r := ListRuns(workspace, environment);
          ok := r.Ok?;
        case Reconcile(c, binding, observation) =>
          var r := ReconcileRun(c, binding, observation, environment);
          ok := r.Ok?;
      }
    }

    /**
     Whole histories: each step comes with its circumstances and with what deliveries have made of the
     freshness rows. `states` are the tables before each step and after the last.
     */
    method Serve(operations: seq<(Operation, Environment, map<RunId, Freshness.Row>)>)
      returns (answers: seq<bool>, ghost states: seq<(AgentRuns.Rows, EventLog.Db)>)
      requires Valid()
      modifies this, context, store
      ensures Valid() && Follows(old(Rows()), old(Db()), Rows(), Db())
      ensures |answers| == |operations| && |states| == |operations| + 1
      ensures states[0] == (old(Rows()), old(Db())) && states[|operations|] == (Rows(), Db())
      ensures forall i :: 0 <= i < |operations| ==>
                var (operation, environment, deliveries) := operations[i];
                && Did(operation, environment, deliveries, states[i].0, states[i].1, states[i + 1].0, states[i + 1].1,
                       answers[i])
                && Follows(states[i].0, states[i].1, states[i + 1].0, states[i + 1].1)
    {
      hide Consistent, EventLog.Log, Sound, Follows, ContextsAgree, Did;
      FollowsItself(Rows(), Db());
      answers, states := [], [(Rows(), Db())];
      for i := 0 to |operations|
        invariant Valid() && Follows(old(Rows()), old(Db()), Rows(), Db())
        invariant |answers| == i && |states| == i + 1
        invariant states[0] == (old(Rows()), old(Db())) && states[i] == (Rows(), Db())
        invariant forall j :: 0 <= j < i ==>
                    var (operation, environment, deliveries) := operations[j];
                    && Did(operation, environment, deliveries, states[j].0, states[j].1, states[j + 1].0,
                           states[j + 1].1, answers[j])
                    && Follows(states[j].0, states[j].1, states[j + 1].0, states[j + 1].1)
      {
        ghost var rows, db := Rows(), Db();
        freshness := operations[i].2;
        var ok := Perform(operations[i].0, operations[i].1);
        FollowsTransitively(old(Rows()), old(Db()), rows, db, Rows(), Db());
        answers, states := answers + [ok], states + [(Rows(), Db())];
      }
    }
  }

  /** What an operation does, and when it succeeds. */
  ghost predicate Did(operation: Operation, environment: Environment, freshness: map<RunId, Freshness.Row>,
                      rows: AgentRuns.Rows, db: Db, rows': AgentRuns.Rows, db': Db, ok: bool) {
    match operation
    case Register(registry, c, at) =>
      && db' == db && ok == CanRegister(registry, rows, c)
      && rows' == if ok && c.run !in rows then rows[c.run := Record(c, Option.None, true, at)] else rows
    case Bind(registry, c, binding) =>
      && db' == db && ok == CanBind(registry, rows, c, binding)
      && rows' == if ok then rows[c.run := rows[c.run].(binding := Some(binding))] else rows
    case Abort(c) =>
      && db' == db && ok == IsActiveAs(rows, c)
      && rows' == if ok then SwitchedOff(rows, {c.run}) else rows
    case AppendMany(c, kinds) =>
      && rows' == rows
      && ok == (IsActiveAs(rows, c) && (kinds == [] || (Accepts(db, c, kinds, Source.ProviderIntegration)
                                                        && !environment.fileFault)))
      && db' == if IsActiveAs(rows, c)
                then AfterWrite(db, c, kinds, Source.ProviderIntegration, environment.now) else db
    case ListRuns(workspace) =>
      && (CanList(rows, db, freshness, environment, workspace) ==> ok)
      && (ok ==> NoneExited(rows', db', workspace))
    case Reconcile(c, binding, observation) =>
      if Observable(rows, c, binding) then Reconciled(c, observation, environment, freshness, rows, db, rows', db', ok)
      else !ok && rows' == rows && db' == db
  }

  function RowIn(freshness: map<RunId, Freshness.Row>, run: RunId): Option<Freshness.Row> {
    if run in freshness then Some(freshness[run]) else Option.None
  }

  /** What a process observation leads to, once the integration's health has been brought up to date. */
  ghost predicate Reconciled(c: Context, observation: Observation, environment: Environment,
                             freshness: map<RunId, Freshness.Row>, rows: AgentRuns.Rows, db: Db, rows': AgentRuns.Rows,
                             db': Db, ok: bool) {
    var row, now := RowIn(freshness, c.run), environment.now;
    var refreshed := Refreshed(rows, db, c.run, row, now);
    if !RefreshSucceeds(rows, db, c.run, row, now, environment.fileFault) || c.pane.None? then
      !ok && rows' == rows && db' == refreshed
    else if IsExited(refreshed, c.run) then
      ok && rows' == SwitchedOff(rows, {c.run}) && db' == refreshed
    else
      Acted(c, observation, environment, rows, refreshed, rows', db', ok)
  }

  /** An observation worth an event is recorded; an end recorded without failure or death switches the run off. */
  ghost predicate Acted(c: Context, observation: Observation, environment: Environment, rows: AgentRuns.Rows, db: Db,
                        rows': AgentRuns.Rows, db': Db, ok: bool) {
    var report := ReportOf(db, c, observation);
    if report.None? then ok && rows' == rows && db' == db
    else
      var recorded := HasRoomFor(db, c.run, 1) && !environment.fileFault;
      var ended := recorded && report.value.Exited? && !environment.dies;
      && db' == AfterWrite(db, c, [report.value], Source.ProcessSupervisor, environment.now)
      && rows' == (if ended then SwitchedOff(rows, {c.run}) else rows)
      && (ok <==> if report.value.Exited? then ended && !environment.assetFault(c.run) else recorded)
  }

  /** The event that an observation of a run that has not ended is worth. */
  function ReportOf(db: Db, c: Context, observation: Observation): Option<Kind> {
    match observation
    case Live => Option.None
    case StateUnknown => if Committed(db, c).state == AgentState.Unknown then Option.None else Some(Kind.StateUnknown)
    case Missing => Some(Kind.Exited(Option.None))
    case Exited(code) => Some(Kind.Exited(code))
  }

  /**
   A live run is left alone; an unknown state is logged unless it is shown already, and an end always, with its
   status: none if the process has gone without one.
   */
  lemma ObservationsAreLogged(db: Db, c: Context, observation: Observation, at: u64)
    requires Consistent(db) && HasItsContext(db, c) && HasRoomFor(db, c.run, 1)
    ensures (ReportOf(db, c, observation).None? <==>
               observation.Live? || (observation.StateUnknown? && Committed(db, c).state == AgentState.Unknown))
    ensures ReportOf(db, c, observation).Some? ==>
              var report := ReportOf(db, c, observation).value;
              var log' := EventLog.Log(AfterWrite(db, c, [report], Source.ProcessSupervisor, at), c.run);
              var kind := match observation
                case Exited(code) => Kind.Exited(code)
                case Missing => Kind.Exited(Option.None)
                case _ => Kind.StateUnknown;
              LogGains(EventLog.Log(db, c.run), log', c, [kind], Source.ProcessSupervisor, at)
  {
    hide Consistent, LogGains, EventLog.Log, Written, Writes, Accepts, Committed, HasItsContext, HasRoomFor;
    var report := ReportOf(db, c, observation);
    if report.Some? {
      ReportNeedsRoom(db, c, report.value, Source.ProcessSupervisor);
      WritesExactly(db, c, [report.value], Source.ProcessSupervisor, at);
      WritesLogTheKinds(db, c, [report.value], Source.ProcessSupervisor, at);
    }
  }

  function Cutoff(environment: Environment): int {
    Max(environment.now - UNBOUND_GRACE, 0)
  }

  predicate IsUsable(row: Option<Freshness.Row>) {
    row.Some? ==> Freshness.Readable(row.value) && row.value.provider.OpenCode?
  }

  predicate RefreshIsDue(rows: AgentRuns.Rows, db: Db, run: RunId, row: Option<Freshness.Row>, now: u64) {
    Refreshable(rows, db, run) && HealthIsDue(StoredHealth(db, run), run in db.runs, row, now)
  }

  predicate RefreshSucceeds(rows: AgentRuns.Rows, db: Db, run: RunId, row: Option<Freshness.Row>, now: u64,
                            fileFault: bool) {
    && (Refreshable(rows, db, run) ==> IsUsable(row))
    && (RefreshIsDue(rows, db, run, row, now) ==> HasRoomFor(db, run, 1) && !fileFault)
  }

  /** The log after the integration's health has been brought up to date. */
  function Refreshed(rows: AgentRuns.Rows, db: Db, run: RunId, row: Option<Freshness.Row>, now: u64): Db {
    if RefreshIsDue(rows, db, run, row, now) && IsUsable(row)
    then AfterWrite(db, rows[run].context, [HealthChanged(DesiredHealth(row, now))], Source.IntegrationSupervisor, now)
    else db
  }

  /** Nothing outside fails, the freshness rows are in order, no log is full, and there are not too many runs. */
  ghost predicate CanList(rows: AgentRuns.Rows, db: Db, freshness: map<RunId, Freshness.Row>, environment: Environment,
                          workspace: Option<WorkspaceId>) {
    var kept := SwitchedOff(rows, AbandonedRuns(rows, Cutoff(environment)));
    && !environment.fileFault && environment.filesRemoved && |ListedRuns(kept, workspace)| <= MAX_ACTIVE_RUNS
    && forall run :: run in rows ==> IsCalmRun(db, freshness, environment, run)
  }

  predicate IsCalmRun(db: Db, freshness: map<RunId, Freshness.Row>, environment: Environment, run: RunId) {
    !environment.assetFault(run) && IsUsable(RowIn(freshness, run)) && HasRoomFor(db, run, 1)
  }

  /** The records still to be listed give no reason to fail. */
  ghost predicate CalmFrom(db: Db, freshness: map<RunId, Freshness.Row>, environment: Environment,
                           records: seq<Record>, i: nat) {
    && !environment.fileFault
    && forall j :: i <= j < |records| ==> IsCalmRun(db, freshness, environment, records[j].context.run)
  }

  lemma CalmStarts(rows: AgentRuns.Rows, rows': AgentRuns.Rows, db: Db, freshness: map<RunId, Freshness.Row>,
                   environment: Environment, workspace: Option<WorkspaceId>, listed: Result<seq<Record>, RunError>)
    requires listed.Err? <==>
               var kept := SwitchedOff(rows, AbandonedRuns(rows, Cutoff(environment)));
               || (!environment.filesRemoved && AbandonedRuns(rows, Cutoff(environment)) != {})
               || |ListedRuns(kept, workspace)| > MAX_ACTIVE_RUNS
    requires listed.Ok? ==> Enumerates(rows', workspace, listed.value) && OldestFirst(listed.value)
    requires listed.Ok? ==> rows'.Keys == rows.Keys
    ensures CanList(rows, db, freshness, environment, workspace) ==>
              listed.Ok? && CalmFrom(db, freshness, environment, listed.value, 0)
    ensures listed.Ok? ==> InOrder(listed.value, 0, [])
  {
    hide IsCalmRun, Listed, ListedRuns, AbandonedRuns;
  }

  lemma CalmSucceeds(rows: AgentRuns.Rows, db: Db, freshness: map<RunId, Freshness.Row>, environment: Environment,
                     records: seq<Record>, i: nat)
    requires i < |records|
    ensures CalmFrom(db, freshness, environment, records, i) ==>
              var run := records[i].context.run;
              && RefreshSucceeds(rows, db, run, RowIn(freshness, run), environment.now, environment.fileFault)
              && !environment.assetFault(run)
  {
    if CalmFrom(db, freshness, environment, records, i) {
      assert IsCalmRun(db, freshness, environment, records[i].context.run);
    }
  }

  lemma CalmContinues(db: Db, db': Db, freshness: map<RunId, Freshness.Row>, environment: Environment,
                      records: seq<Record>, i: nat)
    requires i < |records| && DistinctRuns(records)
    requires forall run :: run != records[i].context.run ==> SameRun(db, db', run)
    ensures CalmFrom(db, freshness, environment, records, i) ==> CalmFrom(db', freshness, environment, records, i + 1)
  {
    hide IsUsable;
    if CalmFrom(db, freshness, environment, records, i) {
      forall j | i + 1 <= j < |records| ensures IsCalmRun(db', freshness, environment, records[j].context.run) {
        assert IsCalmRun(db, freshness, environment, records[j].context.run);
        assert SameRun(db, db', records[j].context.run);
      }
    }
  }

  /** The runs shown so far are among the first `i` records, in their order. */
  ghost predicate InOrder(records: seq<Record>, i: nat, runs: seq<HostRun>) {
    && OldestFirst(records) && DistinctRuns(records) && i <= |records|
    && OldestFirst(RecordsOf(runs)) && DistinctRuns(RecordsOf(runs))
    && forall k :: 0 <= k < |runs| ==> runs[k].record in records[..i]
  }

  lemma StaysInOrder(records: seq<Record>, i: nat, runs: seq<HostRun>, one: Option<HostRun>)
    requires InOrder(records, i, runs) && i < |records| && (one.Some? ==> one.value.record == records[i])
    ensures InOrder(records, i + 1, if one.Some? then runs + [one.value] else runs)
    ensures DistinctRuns(records)
  {
    assert records[..i + 1] == records[..i] + [records[i]];
    if one.Some? {
      assert RecordsOf(runs + [one.value]) == RecordsOf(runs) + [records[i]];
    }
  }

  lemma ListIsInOrder(records: seq<Record>, runs: seq<HostRun>)
    requires InOrder(records, |records|, runs)
    ensures OldestFirst(RecordsOf(runs)) && DistinctRuns(RecordsOf(runs))
  {
  }

  /** No run that is listed from now on has ended. */
  ghost predicate NoneExited(rows: AgentRuns.Rows, db: Db, workspace: Option<WorkspaceId>) {
    forall run :: run in rows && Listed(rows[run], workspace) ==> !IsExited(db, rows[run].context.run)
  }

  lemma ShownAreNotExited(rows: AgentRuns.Rows, db: Db, workspace: Option<WorkspaceId>, runs: seq<HostRun>)
    requires forall run :: run in runs ==> ShownRight(rows, db, workspace, run)
    requires forall run :: run in rows && Listed(rows[run], workspace) ==> Shown(runs, rows[run])
    ensures NoneExited(rows, db, workspace)
  {
    hide Listed, IsExited, Committed;
    forall run | run in rows && Listed(rows[run], workspace) ensures !IsExited(db, rows[run].context.run) {
      var i :| 0 <= i < |runs| && runs[i].record == rows[run];
      assert runs[i] in runs;
    }
  }

  function RecordsOf(runs: seq<HostRun>): seq<Record> {
    Map(runs, (run: HostRun) => run.record)
  }

  /** An active run has its events under its context. */
  lemma ActiveHasContext(rows: AgentRuns.Rows, db: Db, c: Context)
    requires ContextsAgree(rows, db) && IsActiveAs(rows, c)
    ensures HasItsContext(db, c)
  {
  }

  predicate Observable(rows: Rows, c: Context, binding: Binding) {
    c.run in rows && rows[c.run].active && rows[c.run].context == c && rows[c.run].binding == Some(binding)
  }

  function StoredHealth(db: Db, run: RunId): Health {
    if run in db.runs then db.runs[run].latest.health else Health.Unknown
  }

  predicate Refreshable(rows: Rows, db: Db, run: RunId) {
    run in rows && rows[run].active && rows[run].context.provider.OpenCode? && !IsExited(db, run)
  }

  /** Active, bound, in the workspace, and shown with its committed snapshot, which is not an exit. */
  predicate ShownRight(rows: Rows, db: Db, workspace: Option<WorkspaceId>, run: HostRun) {
    var c := run.record.context;
    && c.run in rows && rows[c.run] == run.record && Listed(run.record, workspace) && c.pane.Some?
    && run.snapshot == Committed(db, c) && !IsExited(db, c.run)
  }

  ghost predicate Shown(runs: seq<HostRun>, record: Record) {
    exists i :: 0 <= i < |runs| && runs[i].record == record
  }

  /** The first `i` records are shown right or switched off, and the others are as they were. */
  ghost predicate Progress(scanned: Rows, rows: Rows, db: Db, workspace: Option<WorkspaceId>, records: seq<Record>,
                           i: nat, runs: seq<HostRun>) {
    && i <= |records| && Enumerates(scanned, workspace, records)
    && rows.Keys == scanned.Keys
    && (forall run :: run in scanned ==> rows[run] == scanned[run] || Inactive(rows, run))
    && (forall j :: i <= j < |records| ==> rows[records[j].context.run] == records[j])
    && (forall run :: run in runs ==> ShownRight(rows, db, workspace, run) && run.record in records[..i])
    && (forall j :: 0 <= j < i ==> Shown(runs, records[j]) || Inactive(rows, records[j].context.run))
  }

  lemma ProgressStarts(scanned: Rows, db: Db, workspace: Option<WorkspaceId>, records: seq<Record>)
    requires Enumerates(scanned, workspace, records)
    ensures Progress(scanned, scanned, db, workspace, records, 0, [])
  {
  }

  lemma RecordIsOpen(scanned: Rows, rows: Rows, db: Db, workspace: Option<WorkspaceId>, records: seq<Record>, i: nat,
                     runs: seq<HostRun>)
    requires Progress(scanned, rows, db, workspace, records, i, runs) && i < |records|
    ensures var c := records[i].context;
            && c.run in rows && rows[c.run] == records[i] && records[i].active && records[i].binding.Some?
            && c.pane.Some?
  {
  }

  lemma ProgressContinues(scanned: Rows, rows: Rows, db: Db, rows': Rows, db': Db, workspace: Option<WorkspaceId>,
                          records: seq<Record>, i: nat, runs: seq<HostRun>, one: Option<HostRun>)
    requires Progress(scanned, rows, db, workspace, records, i, runs) && i < |records|
    requires forall run :: run != records[i].context.run ==> SameRun(db, db', run)
    requires one.Some? ==> one.value == HostRun(records[i], Committed(db', records[i].context))
                           && !IsExited(db', records[i].context.run) && rows' == rows
    requires one.None? ==> rows' == SwitchedOff(rows, {records[i].context.run})
    ensures Progress(scanned, rows', db', workspace, records, i + 1, if one.Some? then runs + [one.value] else runs)
  {
    hide EventLog.Log, Listed, ShownRight, Shown, SameRun, Committed, IsExited;
    var later := if one.Some? then runs + [one.value] else runs;
    assert records[..i + 1] == records[..i] + [records[i]];
    forall run | run in runs ensures ShownRight(rows', db', workspace, run) {
      var j :| 0 <= j < i && records[j] == run.record;
      assert run.record.context.run != records[i].context.run;
      OthersStayRight(rows, db, rows', db', workspace, run, records[i].context.run);
    }
    if one.Some? {
      NewlyShown(rows', db', workspace, runs, one.value);
    }
    forall j | 0 <= j < i + 1 ensures Shown(later, records[j]) || Inactive(rows', records[j].context.run) {
      if j < i && Shown(runs, records[j]) && one.Some? {
        StillShown(runs, one.value, records[j]);
      }
    }
  }

  lemma OthersStayRight(rows: Rows, db: Db, rows': Rows, db': Db, workspace: Option<WorkspaceId>, run: HostRun,
                        changed: RunId)
    requires ShownRight(rows, db, workspace, run) && run.record.context.run != changed
    requires SameRun(db, db', run.record.context.run)
    requires rows' == rows || rows' == SwitchedOff(rows, {changed})
    ensures ShownRight(rows', db', workspace, run)
  {
    hide EventLog.Log;
  }

  lemma NewlyShown(rows: Rows, db: Db, workspace: Option<WorkspaceId>, runs: seq<HostRun>, run: HostRun)
    requires run.record.context.run in rows && rows[run.record.context.run] == run.record
    requires Listed(run.record, workspace) && run.record.context.pane.Some?
    requires run.snapshot == Committed(db, run.record.context) && !IsExited(db, run.record.context.run)
    ensures ShownRight(rows, db, workspace, run) && Shown(runs + [run], run.record)
  {
    assert (runs + [run])[|runs|].record == run.record;
  }

  lemma StillShown(runs: seq<HostRun>, run: HostRun, record: Record)
    requires Shown(runs, record)
    ensures Shown(runs + [run], record)
  {
    var i :| 0 <= i < |runs| && runs[i].record == record;
    assert (runs + [run])[i].record == record;
  }

  lemma ProgressEnds(scanned: Rows, rows: Rows, db: Db, workspace: Option<WorkspaceId>, records: seq<Record>,
                     runs: seq<HostRun>)
    requires Sound(scanned) && Progress(scanned, rows, db, workspace, records, |records|, runs)
    ensures forall run :: run in runs ==> ShownRight(rows, db, workspace, run)
    ensures forall run :: run in rows && Listed(rows[run], workspace) ==> Shown(runs, rows[run])
  {
    hide Shown, ShownRight;
    forall run | run in rows && Listed(rows[run], workspace) ensures Shown(runs, rows[run]) {
      assert rows[run] == scanned[run] && scanned[run] in records;
      var j :| 0 <= j < |records| && records[j] == scanned[run];
      assert records[j].context.run == run;
    }
  }

  lemma FollowsItself(rows: Rows, db: Db)
    ensures Follows(rows, db, rows, db)
  {
  }

  lemma KeysAreRuns(rows: Rows, run: RunId)
    requires Sound(rows) && run in rows
    ensures rows[run].context.run == run
  {
  }

  lemma RowsMayEvolve(rows: Rows, rows': Rows, db: Db)
    requires Evolves(rows, rows') && ContextsAgree(rows, db)
    ensures Follows(rows, db, rows', db) && ContextsAgree(rows', db)
  {
  }

  lemma CommittedAnswers(db: Db, c: Context, drafts: seq<Draft>, fileFault: bool)
    requires Writes(db, c, drafts)
    ensures var r := AppendBatch(db, Start(db, c), drafts, fileFault).result;
            r == if fileFault then Err(FileProtection) else Ok(NewUpdates(db, Start(db, c), drafts))
  {
    hide Prepare;
  }

  lemma UpdatesHaveContext(db: Db, c: Context, drafts: seq<Draft>)
    requires Writes(db, c, drafts)
    requires forall i :: 0 <= i < |drafts| ==> HasContext(EventOf(drafts[i], 1), c)
    ensures forall i :: 0 <= i < |drafts| ==> HasContext(NewUpdates(db, Start(db, c), drafts)[i].event, c)
  {
    hide Prepare;
    forall i | 0 <= i < |drafts| ensures HasContext(NewUpdates(db, Start(db, c), drafts)[i].event, c) {
      PreparedUpdates(db, Start(db, c), drafts, i);
      assert HasContext(EventOf(drafts[i], 1), c);
    }
  }

  lemma LastUpdateIsCommitted(db: Db, c: Context, drafts: seq<Draft>)
    requires Writes(db, c, drafts) && drafts[0].run == c.run
    ensures Committed(Written(db, c, drafts), c) == NewUpdates(db, Start(db, c), drafts)[|drafts| - 1].snapshot
  {
    hide Prepare;
  }

  lemma CorrectedHealthIsNotDue(row: Option<Freshness.Row>, now: u64)
    ensures !HealthIsDue(DesiredHealth(row, now), true, row, now)
  {
  }
}

/** The table of agent runs: where each runs, which terminal pane it is bound to, and whether it is still active. */
module AgentRuns {
  import opened Prelude
  import opened AgentModel
  import opened StableSort

  const MAX_ACTIVE_RUNS := 1000

  datatype Context = Context(host: HostId, workspace: WorkspaceId, run: RunId, pane: Option<PaneId>, provider: Provider)

  datatype Binding = Binding(session: nat, sessionName: string, version: string, tab: u64, tabName: string,
                             zellijPane: string)

  datatype Record = Record(context: Context, binding: Option<Binding>, active: bool, createdAt: int)

  datatype SessionState = Starting | Running | Exited | Failed

  datatype Session = Session(workspace: WorkspaceId, zellij: bool, name: string, version: string, state: SessionState)

  /** What the host registry says, and how a run's identifier is written. */
  datatype Registry = Registry(localHost: Option<HostId>, workspaces: map<WorkspaceId, HostId>,
                               sessions: map<nat, Session>, runText: RunId -> string)

  datatype RunError =
    | ContextRefused
    | BindingRefused
    | DifferentContext
    | RunIsStale
    | PaneOccupied
    | NotRegistered
    | DifferentBinding
    | Constraint
    | TooManyRuns
    | CleanupFailed

  type Rows = map<RunId, Record>

  predicate ContextValid(registry: Registry, c: Context) {
    && registry.localHost == Some(c.host)
    && c.workspace in registry.workspaces && registry.workspaces[c.workspace] == c.host
  }

  predicate BindingValid(registry: Registry, c: Context, b: Binding) {
    && c.pane.Some? && b.tab <= I64_MAX
    && IsSingleLine(b.sessionName) && IsSingleLine(b.version) && IsSingleLine(b.tabName) && IsSingleLine(b.zellijPane)
    && IsTerminalPane(b.zellijPane)
    && b.tabName == "agent-" + registry.runText(c.run)
    && b.session in registry.sessions && IsSessionOf(registry.sessions[b.session], c, b)
  }

  predicate IsSessionOf(session: Session, c: Context, b: Binding) {
    && session.workspace == c.workspace && session.zellij
    && session.name == b.sessionName && session.version == b.version
    && !session.state.Exited? && !session.state.Failed?
  }

  const MAX_TEXT_BYTES := 128
  const TERMINAL := "terminal_"

  function TextBytes(text: string): nat {
    if text == [] then 0 else Utf8Length(text[0] as int) + TextBytes(text[1..])
  }

  predicate IsControl(c: char) {
    c < ' ' || '\U{7F}' <= c < '\U{A0}'
  }

  predicate IsSingleLine(text: string) {
    text != [] && TextBytes(text) <= MAX_TEXT_BYTES && forall i :: 0 <= i < |text| ==> !IsControl(text[i])
  }

  function Decimal(digits: string): nat {
    if digits == [] then 0
    else
      var last := digits[|digits| - 1];
      10 * Decimal(digits[..|digits| - 1]) + if '0' <= last <= '9' then (last - '0') as nat else 0
  }

  /** From the character at `start` on, at least one, and digits only. */
  predicate DigitsFrom(text: string, start: nat) {
    start < |text| && forall i :: start <= i < |text| ==> '0' <= text[i] <= '9'
  }

  /** A 32-bit number, with an optional plus sign. */
  predicate IsU32(text: string) {
    var start := if text != [] && text[0] == '+' then 1 else 0;
    DigitsFrom(text, start) && Decimal(text[start..]) < TWO_32
  }

  predicate IsTerminalPane(text: string) {
    TERMINAL <= text && IsU32(text[|TERMINAL|..])
  }

  /** Why a context is refused. */
  lemma RefusedContexts(registry: Registry, c: Context)
    ensures !ContextValid(registry, c) <==>
              || registry.localHost.None? || registry.localHost.value != c.host
              || c.workspace !in registry.workspaces || registry.workspaces[c.workspace] != c.host
  {
  }

  /** The text is empty, longer than 128 bytes, or holds a control character. */
  predicate IsUnfit(text: string) {
    text == "" || TextBytes(text) > 128 || exists i :: 0 <= i < |text| && IsControlCode(text[i] as int)
  }

  predicate IsControlCode(code: int) {
    0 <= code < 32 || 127 <= code < 160
  }

  /** Why a binding is refused: each of these is reason enough, and there is no other. */
  lemma RefusedBindings(registry: Registry, c: Context, b: Binding)
    ensures !BindingValid(registry, c, b) <==>
              || c.pane.None? || b.tab >= 0x8000_0000_0000_0000
              || IsUnfit(b.sessionName) || IsUnfit(b.version) || IsUnfit(b.tabName) || IsUnfit(b.zellijPane)
              || !IsTerminalPane(b.zellijPane)
              || b.tabName != "agent-" + registry.runText(c.run)
              || b.session !in registry.sessions
              || !IsOpenSession(registry.sessions[b.session], c.workspace, b.sessionName, b.version)
  {
    UnfitExactly(b.sessionName);
    UnfitExactly(b.version);
    UnfitExactly(b.tabName);
    UnfitExactly(b.zellijPane);
  }

  predicate IsOpenSession(session: Session, workspace: WorkspaceId, name: string, version: string) {
    || session == Session(workspace, true, name, version, SessionState.Starting)
    || session == Session(workspace, true, name, version, SessionState.Running)
  }

  lemma UnfitExactly(text: string)
    ensures IsUnfit(text) <==> !IsSingleLine(text)
  {
    forall i | 0 <= i < |text| ensures IsControl(text[i]) <==> IsControlCode(text[i] as int) {
    }
  }

  function DigitsOf(n: nat): string {
    if n < 10 then [('0' as int + n) as char] else DigitsOf(n / 10) + [('0' as int + n % 10) as char]
  }

  lemma {:induction false} DigitsSpell(n: nat)
    ensures DigitsOf(n) != [] && Decimal(DigitsOf(n)) == n
    ensures forall i :: 0 <= i < |DigitsOf(n)| ==> '0' <= DigitsOf(n)[i] <= '9'
  {
    var digits := DigitsOf(n);
    if n < 10 {
      assert digits[..0] == [];
    } else {
      DigitsSpell(n / 10);
      assert digits[..|digits| - 1] == DigitsOf(n / 10);
    }
  }

  /** The selector of every numbered terminal pane is accepted, with or without a plus sign, and no greater number. */
  lemma TerminalPanesAreNumbered(n: nat)
    ensures IsTerminalPane("terminal_" + DigitsOf(n)) <==> n < 0x1_0000_0000
    ensures IsTerminalPane("terminal_+" + DigitsOf(n)) <==> n < 0x1_0000_0000
  {
    DigitsSpell(n);
    var plain, signed := "terminal_" + DigitsOf(n), "terminal_+" + DigitsOf(n);
    assert plain[|TERMINAL|..] == DigitsOf(n);
    assert signed[|TERMINAL|..] == "+" + DigitsOf(n) && ("+" + DigitsOf(n))[1..] == DigitsOf(n);
    assert signed[..|TERMINAL|] == TERMINAL;
  }

  /** Anything else is not a terminal pane: another kind of pane, no number, or a character that is no digit. */
  lemma OtherPanesAreRefused(text: string)
    requires IsTerminalPane(text)
    ensures text[..9] == "terminal_"
    ensures |text| > 9 && (DigitsFrom(text, 9) || (|text| > 10 && text[9] == '+' && DigitsFrom(text, 10)))
  {
    var number := text[|TERMINAL|..];
    assert forall i :: 9 <= i < |text| ==> text[i] == number[i - 9];
  }

  // ---- what every operation keeps

  predicate Sits(r: Record, workspace: WorkspaceId, pane: PaneId) {
    r.active && r.context.workspace == workspace && r.context.pane == Some(pane)
  }

  predicate Attached(r: Record, session: nat, zellijPane: string) {
    r.active && r.binding.Some? && r.binding.value.session == session && r.binding.value.zellijPane == zellijPane
  }

  /** Rows are keyed by their run; an active run is alone in its pane, and alone in its terminal pane. */
  ghost predicate Sound(rows: Rows) {
    && (forall run :: run in rows ==> rows[run].context.run == run)
    && (forall a, b, w, p :: a in rows && b in rows && Sits(rows[a], w, p) && Sits(rows[b], w, p) ==> a == b)
    && (forall a, b, s, z :: a in rows && b in rows && Attached(rows[a], s, z) && Attached(rows[b], s, z) ==> a == b)
  }

  predicate Inactive(rows: Rows, run: RunId) {
    run in rows && !rows[run].active
  }

  /** A run's context never changes, its binding is set at most once, and an inactive run never becomes active. */
  ghost predicate Evolves(rows: Rows, later: Rows) {
    forall run :: run in rows ==>
      && run in later && later[run].context == rows[run].context && later[run].createdAt == rows[run].createdAt
      && (rows[run].binding.Some? ==> later[run].binding == rows[run].binding)
      && (later[run].active ==> rows[run].active)
  }

  lemma EvolvesTransitively(a: Rows, b: Rows, c: Rows)
    requires Evolves(a, b) && Evolves(b, c)
    ensures Evolves(a, c)
  {
  }

  /** Some active rows switched off, nothing else. */
  function SwitchedOff(rows: Rows, off: set<RunId>): (later: Rows)
    ensures later.Keys == rows.Keys
  {
    map run | run in rows :: if run in off then rows[run].(active := false) else rows[run]
  }

  lemma SwitchingOffEvolves(rows: Rows, off: set<RunId>)
    requires Sound(rows)
    ensures Sound(SwitchedOff(rows, off)) && Evolves(rows, SwitchedOff(rows, off))
  {
    var later := SwitchedOff(rows, off);
    forall a, b, w, p | a in later && b in later && Sits(later[a], w, p) && Sits(later[b], w, p) ensures a == b {
      assert Sits(rows[a], w, p) && Sits(rows[b], w, p);
    }
    forall a, b, s, z | a in later && b in later && Attached(later[a], s, z) && Attached(later[b], s, z)
      ensures a == b {
      assert Attached(rows[a], s, z) && Attached(rows[b], s, z);
    }
  }

  predicate Abandoned(r: Record, cutoff: int) {
    r.active && r.binding.None? && r.createdAt < cutoff
  }

  predicate Listed(r: Record, workspace: Option<WorkspaceId>) {
    r.active && r.binding.Some? && (workspace.None? || r.context.workspace == workspace.value)
  }

  function AbandonedRuns(rows: Rows, cutoff: int): set<RunId> {
    set run | run in rows && Abandoned(rows[run], cutoff)
  }

  function ListedRuns(rows: Rows, workspace: Option<WorkspaceId>): set<RunId> {
    set run | run in rows && Listed(rows[run], workspace)
  }

  /** The run is active under this very context. */
  predicate IsActiveAs(rows: Rows, c: Context) {
    c.run in rows && rows[c.run].active && rows[c.run].context == c
  }

  /** Registered here already, or a new run in a pane that no active run has. */
  predicate CanRegister(registry: Registry, rows: Rows, c: Context) {
    && ContextValid(registry, c)
    && if c.run in rows then IsActiveAs(rows, c)
       else c.pane.Some? ==> forall run :: run in rows ==> !Sits(rows[run], c.workspace, c.pane.value)
  }

  /** Bound to this already, or unbound and to a terminal pane that no active run is attached to. */
  predicate CanBind(registry: Registry, rows: Rows, c: Context, b: Binding) {
    && ContextValid(registry, c) && BindingValid(registry, c, b) && IsActiveAs(rows, c)
    && if rows[c.run].binding.Some? then rows[c.run].binding.value == b
       else forall run :: run in rows ==> !Attached(rows[run], b.session, b.zellijPane)
  }

  ghost predicate IsPaneTaken(rows: Rows, workspace: WorkspaceId, pane: PaneId) {
    exists run :: run in rows && rows[run].active
                  && rows[run].context.workspace == workspace && rows[run].context.pane == Some(pane)
  }

  ghost predicate IsTerminalTaken(rows: Rows, session: nat, selector: string) {
    exists run :: run in rows && rows[run].active && rows[run].binding.Some?
                  && rows[run].binding.value.session == session && rows[run].binding.value.zellijPane == selector
  }

  /** Why a registration is refused. */
  lemma RefusedRegistrations(registry: Registry, rows: Rows, c: Context)
    ensures !CanRegister(registry, rows, c) <==>
              || !ContextValid(registry, c)
              || (c.run in rows && (!rows[c.run].active || rows[c.run].context != c))
              || (c.run !in rows && c.pane.Some? && IsPaneTaken(rows, c.workspace, c.pane.value))
  {
    if c.pane.Some? {
      assert forall run :: run in rows && Sits(rows[run], c.workspace, c.pane.value) ==> rows[run].active;
    }
  }

  /** Why a binding that is valid as such is refused. */
  lemma RefusedAttachments(registry: Registry, rows: Rows, c: Context, b: Binding)
    requires ContextValid(registry, c) && BindingValid(registry, c, b)
    ensures !CanBind(registry, rows, c, b) <==>
              || c.run !in rows || !rows[c.run].active || rows[c.run].context != c
              || (rows[c.run].binding.Some? && rows[c.run].binding.value != b)
              || (rows[c.run].binding.None? && IsTerminalTaken(rows, b.session, b.zellijPane))
  {
    assert forall run :: run in rows && Attached(rows[run], b.session, b.zellijPane) ==> rows[run].active;
  }

  /** What is sound: two active runs are never in one pane of a workspace, nor in one terminal pane of a session. */
  lemma SoundMeans(rows: Rows, a: RunId, b: RunId)
    requires Sound(rows) && a in rows && b in rows && rows[a].active && rows[b].active && a != b
    ensures rows[a].context.pane.Some? && rows[a].context.workspace == rows[b].context.workspace ==>
              rows[a].context.pane != rows[b].context.pane
    ensures rows[a].binding.Some? && rows[b].binding.Some?
            && rows[a].binding.value.session == rows[b].binding.value.session ==>
              rows[a].binding.value.zellijPane != rows[b].binding.value.zellijPane
  {
    var p := rows[a].context;
    if p.pane.Some? && rows[b].context.pane == p.pane && p.workspace == rows[b].context.workspace {
      assert Sits(rows[a], p.workspace, p.pane.value) && Sits(rows[b], p.workspace, p.pane.value);
    }
    if rows[a].binding.Some? && rows[b].binding.Some? {
      var x := rows[a].binding.value;
      assert Attached(rows[a], x.session, x.zellijPane);
    }
  }

  class AgentContextStore {
    var rows: Rows

    constructor ()
      ensures rows == map[] && Sound(rows)
    {
      rows := map[];
    }

    method Register(registry: Registry, c: Context, now: int) returns (r: Result<(), RunError>)
      requires Sound(rows)
      modifies this
      ensures Sound(rows) && Evolves(old(rows), rows)
      ensures r.Ok? <==> CanRegister(registry, old(rows), c)
      ensures r.Ok? ==>
                rows == if c.run in old(rows) then old(rows) else old(rows)[c.run := Record(c, Option.None, true, now)]
      ensures r.Err? ==> rows == old(rows)
    {
      if !ContextValid(registry, c) {
        return Err(ContextRefused);
      }
      if c.run in rows {
        var existing := rows[c.run];
        if existing.context != c {
          return Err(DifferentContext);
        }
        if !existing.active {
          return Err(RunIsStale);
        }
        return Ok(());
      }
      if c.pane.Some? {
        if exists run | run in rows :: Sits(rows[run], c.workspace, c.pane.value) {
          return Err(PaneOccupied);
        }
      }
      rows := rows[c.run := Record(c, Option.None, true, now)];
      return Ok(());
    }

    method Bind(registry: Registry, c: Context, b: Binding) returns (r: Result<(), RunError>)
      requires Sound(rows)
      modifies this
      ensures Sound(rows) && Evolves(old(rows), rows)
      ensures r.Ok? <==> CanBind(registry, old(rows), c, b)
      ensures r.Ok? ==> rows == old(rows)[c.run := old(rows)[c.run].(binding := Some(b))]
      ensures r.Err? ==> rows == old(rows)
    {
      if !ContextValid(registry, c) {
        return Err(ContextRefused);
      }
      if !BindingValid(registry, c, b) {
        return Err(BindingRefused);
      }
      if c.run !in rows {
        return Err(NotRegistered);
      }
      var stored := rows[c.run];
      if !stored.active {
        return Err(RunIsStale);
      }
      if stored.context != c {
        return Err(DifferentContext);
      }
      if stored.binding.Some? {
        return if stored.binding.value == b then Ok(()) else Err(DifferentBinding);
      }
      if exists run | run in rows :: Attached(rows[run], b.session, b.zellijPane) {
        return Err(Constraint);
      }
      rows := rows[c.run := stored.(binding := Some(b))];
      BoundRowIsAlone(old(rows), c.run, b);
      return Ok(());
    }

    method Deactivate(c: Context) returns (r: Result<(), RunError>)
      requires Sound(rows)
      modifies this
      ensures Sound(rows) && Evolves(old(rows), rows)
      ensures r.Ok? <==> c.run in old(rows) && old(rows)[c.run].context == c
      ensures r.Ok? ==> rows == SwitchedOff(old(rows), {c.run}) && Inactive(rows, c.run)
      ensures r.Err? ==> rows == old(rows)
    {
      if c.run !in rows {
        return Err(NotRegistered);
      }
      if rows[c.run].context != c {
        return Err(DifferentContext);
      }
      SwitchingOffEvolves(rows, {c.run});
      if rows[c.run].active {
        rows := rows[c.run := rows[c.run].(active := false)];
      }
      assert rows == SwitchedOff(old(rows), {c.run});
      return Ok(());
    }

    function Active(run: RunId): (c: Option<Context>)
      reads this
      ensures c.Some? <==> run in rows && rows[run].active
      ensures c.Some? ==> c.value == rows[run].context
    {
      if run in rows && rows[run].active then Some(rows[run].context) else Option.None
    }

    /** Abandoned launches are switched off before their files are removed; removing them may fail afterwards. */
    method CleanupAbandonedUnbound(cutoff: int, filesRemoved: bool) returns (r: Result<(), RunError>)
      requires Sound(rows)
      modifies this
      ensures Sound(rows) && Evolves(old(rows), rows)
      ensures rows == SwitchedOff(old(rows), AbandonedRuns(old(rows), cutoff))
      ensures forall run :: run in old(rows) ==>
                var was := old(rows)[run];
                rows[run].active <==> was.active && (was.binding.Some? || was.createdAt >= cutoff)
      ensures r.Ok? == (filesRemoved || AbandonedRuns(old(rows), cutoff) == {})
    {
      var stale := AbandonedRuns(rows, cutoff);
      SwitchingOffEvolves(rows, stale);
      rows := SwitchedOff(rows, stale);
      return if filesRemoved || stale == {} then Ok(()) else Err(CleanupFailed);
    }

    /**
     The active bound runs of a workspace, or of all. Abandoned launches and bound rows without
     a pane are switched off on the way.
     */
    method ActiveBound(workspace: Option<WorkspaceId>, cutoff: int, filesRemoved: bool)
      returns (r: Result<seq<Record>, RunError>)
      requires Sound(rows)
      modifies this
      ensures Sound(rows) && Evolves(old(rows), rows)
      ensures r.Ok? ==> Enumerates(rows, workspace, r.value) && OldestFirst(r.value)
      ensures r.Ok? ==> forall run :: run in rows ==>
                (rows[run] in r.value <==>
                   && rows[run].active && rows[run].binding.Some? && rows[run].context.pane.Some?
                   && (workspace.Some? ==> rows[run].context.workspace == workspace.value))
      ensures r.Ok? ==> forall i, j :: 0 <= i < j < |r.value| ==> r.value[i].createdAt <= r.value[j].createdAt
      ensures var kept := SwitchedOff(old(rows), AbandonedRuns(old(rows), cutoff));
              if r.Ok? then |ListedRuns(kept, workspace)| <= MAX_ACTIVE_RUNS
                && rows == SwitchedOff(kept, Paneless(kept, workspace))
              else rows == kept
      ensures r.Err? <==>
                || (!filesRemoved && AbandonedRuns(old(rows), cutoff) != {})
                || |ListedRuns(SwitchedOff(old(rows), AbandonedRuns(old(rows), cutoff)), workspace)| > MAX_ACTIVE_RUNS
      ensures r.Err? ==> r.error == if !filesRemoved && AbandonedRuns(old(rows), cutoff) != {} then CleanupFailed
                                    else TooManyRuns
    {
      var cleaned := CleanupAbandonedUnbound(cutoff, filesRemoved);
      if cleaned.Err? {
        return Err(CleanupFailed);
      }
      ghost var kept := rows;
      var ids := ListedRuns(rows, workspace);
      if |ids| > MAX_ACTIVE_RUNS {
        return Err(TooManyRuns);
      }
      var order := InCreationOrder(rows, ids);
      var records := RowsOf(rows, order);
      RowsAreListed(rows, workspace, order, records);
      DeactivateAll(records);
      EvolvesTransitively(old(rows), kept, rows);
      KeptHavePanes(kept, workspace, records);
      OldestStayFirst(records);
      return Ok(WithPane(records));
    }

    /** Switches off every given run without a pane. */
    method DeactivateAll(records: seq<Record>)
      requires Sound(rows)
      requires forall r :: r in records ==> r.context.run in rows && rows[r.context.run].context == r.context
      modifies this
      ensures Sound(rows) && Evolves(old(rows), rows)
      ensures rows == SwitchedOff(old(rows), WithoutPane(records))
    {
      SwitchedOffNothing(rows);
      for i := 0 to |records|
        invariant Sound(rows) && Evolves(old(rows), rows)
        invariant rows == SwitchedOff(old(rows), WithoutPane(records[..i]))
      {
        var c := records[i].context;
        assert records[..i + 1] == records[..i] + [records[i]];
        SwitchingOffEvolves(old(rows), WithoutPane(records[..i + 1]));
        if c.pane.None? {
          assert WithoutPane(records[..i + 1]) == WithoutPane(records[..i]) + {c.run};
          var ignored := Deactivate(c);
          SwitchedOffTwice(old(rows), WithoutPane(records[..i]), {c.run});
        } else {
          assert WithoutPane(records[..i + 1]) == WithoutPane(records[..i]);
        }
      }
      assert records[..|records|] == records;
    }
  }

  function CreatedAt(rows: Rows, run: RunId): int {
    if run in rows then rows[run].createdAt else 0
  }

  /** By creation time, and by run within the same moment. */
  predicate Older(a: int, run: RunId, b: int, other: RunId) {
    a < b || (a == b && run <= other)
  }

  ghost predicate OldestFirst(records: seq<Record>) {
    forall i, j :: 0 <= i < j < |records| ==>
      Older(records[i].createdAt, records[i].context.run, records[j].createdAt, records[j].context.run)
  }

  method InCreationOrder(rows: Rows, ids: set<RunId>) returns (order: seq<RunId>)
    ensures Elements(order) == ids
    ensures forall i, j :: 0 <= i < j < |order| ==> order[i] != order[j]
    ensures forall i, j :: 0 <= i < j < |order| ==>
              Older(CreatedAt(rows, order[i]), order[i], CreatedAt(rows, order[j]), order[j])
  {
    var some := Enumerate(ids);
    var older := (a: RunId, b: RunId) => Older(CreatedAt(rows, a), a, CreatedAt(rows, b), b);
    order := Sort(some, older);
    SameMembers(order, some);
    SortSorts(some, older);
    DistinctStays(some, order);
    forall i, j | 0 <= i < j < |order|
      ensures Older(CreatedAt(rows, order[i]), order[i], CreatedAt(rows, order[j]), order[j]) {
      assert older(order[i], order[j]);
    }
  }

  lemma {:induction false} OldestStayFirst(records: seq<Record>)
    requires OldestFirst(records)
    ensures OldestFirst(WithPane(records))
  {
    if records != [] {
      OldestStayFirst(records[1..]);
      forall r | r in WithPane(records[1..])
        ensures Older(records[0].createdAt, records[0].context.run, r.createdAt, r.context.run)
      {
        assert r in records[1..];
        var j :| 0 <= j < |records[1..]| && records[1..][j] == r;
        assert records[j + 1] == r;
      }
    }
  }

  function Paneless(rows: Rows, workspace: Option<WorkspaceId>): set<RunId> {
    set run | run in ListedRuns(rows, workspace) && rows[run].context.pane.None?
  }

  function WithoutPane(records: seq<Record>): set<RunId> {
    set r | r in records && r.context.pane.None? :: r.context.run
  }

  function RowsOf(rows: Rows, order: seq<RunId>): (records: seq<Record>)
    requires Elements(order) <= rows.Keys
    ensures |records| == |order|
    ensures forall i :: 0 <= i < |order| ==> order[i] in rows && records[i] == rows[order[i]]
  {
    if order == [] then []
    else
      assert order[0] in Elements(order) && Elements(order[1..]) <= Elements(order);
      [rows[order[0]]] + RowsOf(rows, order[1..])
  }

  function WithPane(records: seq<Record>): (kept: seq<Record>)
    ensures forall r :: r in kept <==> r in records && r.context.pane.Some?
    ensures DistinctRuns(records) ==> DistinctRuns(kept)
  {
    if records == [] then []
    else if records[0].context.pane.Some? then [records[0]] + WithPane(records[1..]) else WithPane(records[1..])
  }

  predicate DistinctRuns(records: seq<Record>) {
    forall j, k :: 0 <= j < k < |records| ==> records[j].context.run != records[k].context.run
  }

  lemma SwitchedOffTwice(rows: Rows, a: set<RunId>, b: set<RunId>)
    ensures SwitchedOff(SwitchedOff(rows, a), b) == SwitchedOff(rows, a + b)
  {
  }

  lemma RowsAreListed(rows: Rows, workspace: Option<WorkspaceId>, order: seq<RunId>, records: seq<Record>)
    requires Sound(rows) && Elements(order) == ListedRuns(rows, workspace)
    requires forall i, j :: 0 <= i < j < |order| ==> order[i] != order[j]
    requires |records| == |order| && forall i :: 0 <= i < |order| ==> order[i] in rows && records[i] == rows[order[i]]
    ensures DistinctRuns(records)
    ensures forall r :: r in records ==> r.context.run in rows && rows[r.context.run] == r && Listed(r, workspace)
    ensures forall run :: run in ListedRuns(rows, workspace) ==> rows[run] in records
  {
    forall i | 0 <= i < |order| ensures order[i] in ListedRuns(rows, workspace) && records[i].context.run == order[i] {
      assert order[i] in Elements(order);
    }
    forall run | run in ListedRuns(rows, workspace) ensures rows[run] in records {
      assert run in Elements(order);
      var i :| 0 <= i < |order| && order[i] == run;
      assert records[i] == rows[run];
    }
  }

  lemma KeptHavePanes(rows: Rows, workspace: Option<WorkspaceId>, records: seq<Record>)
    requires Sound(rows) && DistinctRuns(records)
    requires forall r :: r in records ==> r.context.run in rows && rows[r.context.run] == r && Listed(r, workspace)
    requires forall run :: run in ListedRuns(rows, workspace) ==> rows[run] in records
    ensures WithoutPane(records) == Paneless(rows, workspace)
    ensures Enumerates(SwitchedOff(rows, Paneless(rows, workspace)), workspace, WithPane(records))
  {
    var off := Paneless(rows, workspace);
    forall run ensures run in WithoutPane(records) <==> run in off {
      if run in off {
        assert rows[run] in records;
      }
    }
    var later, kept := SwitchedOff(rows, off), WithPane(records);
    forall j | 0 <= j < |kept|
      ensures kept[j].context.run in later && later[kept[j].context.run] == kept[j]
    {
      assert kept[j] in kept;
    }
  }

  /** The records are the listed rows, each once, and all of them have a pane. */
  ghost predicate Enumerates(rows: Rows, workspace: Option<WorkspaceId>, records: seq<Record>) {
    && (forall j :: 0 <= j < |records| ==>
          var run := records[j].context.run;
          run in rows && rows[run] == records[j] && Listed(rows[run], workspace) && rows[run].context.pane.Some?)
    && DistinctRuns(records)
    && (forall run :: run in rows && Listed(rows[run], workspace) ==> rows[run] in records)
  }

  lemma SwitchedOffNothing(rows: Rows)
    ensures SwitchedOff(rows, {}) == rows
  {
  }

  lemma BoundRowIsAlone(rows: Rows, run: RunId, b: Binding)
    requires Sound(rows) && run in rows && rows[run].active && rows[run].binding.None?
    requires forall r :: r in rows ==> !Attached(rows[r], b.session, b.zellijPane)
    ensures var later := rows[run := rows[run].(binding := Some(b))];
            Sound(later) && Evolves(rows, later)
  {
    var later := rows[run := rows[run].(binding := Some(b))];
    forall x, y, w, p | x in later && y in later && Sits(later[x], w, p) && Sits(later[y], w, p) ensures x == y {
      assert Sits(rows[x], w, p) && Sits(rows[y], w, p);
    }
    forall x, y, s, z | x in later && y in later && Attached(later[x], s, z) && Attached(later[y], s, z)
      ensures x == y {
      assert x != run ==> Attached(rows[x], s, z);
      assert y != run ==> Attached(rows[y], s, z);
    }
  }

}

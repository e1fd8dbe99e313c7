/**
 Session leases against worktree removals: any number of clients wanting to hold a workspace's session,
 and any number of helpers removing it, share one advisory lock per workspace and session name.
 */
module SessionLease {
  import opened Prelude

  type WorkspaceId = nat
  type Pid = nat

  /** A session name is the one derived from a workspace, or any other text. */
  datatype SessionName = Proper(workspace: WorkspaceId) | Other(text: string)

  datatype Role = Holder(workspace: WorkspaceId, name: SessionName) | Remover(workspace: WorkspaceId)

  datatype Phase = Begun | Validated | Owning | Checked | Ready | Journalled | Ended

  datatype Process = Process(role: Role, phase: Phase)

  /** A lock file is named by a workspace and a session name. */
  type LockFile = (WorkspaceId, SessionName)

  /**
   `registered` are the workspaces the registry holds for this host, `pending` those with a journalled removal;
   both survive their writers, the lock does not.
   */
  datatype State = State(processes: map<Pid, Process>, owner: map<LockFile, Pid>, registered: set<WorkspaceId>,
                         pending: set<WorkspaceId>)

  /**
   The three rules the program keeps: leases are validated again once the lock is owned, only the
   workspace's proper name is accepted, and a removal is journalled only while owning the lease.
   */
  datatype Rules = Rules(validateAgain: bool, checkName: bool, journalUnderLease: bool)

  const DISCIPLINED := Rules(true, true, true)

  /**
   A process starts, takes its next step, or ends in any way; a listing settles a pending removal, finishing it
   if the worktree is gone; workspaces are registered and deleted by other commands.
   */
  datatype Move =
    | Start(pid: Pid, role: Role)
    | Advance(pid: Pid)
    | End(pid: Pid)
    | Settle(workspace: WorkspaceId, finished: bool)
    | Enroll(workspace: WorkspaceId)
    | Forget(workspace: WorkspaceId)

  function FileOf(role: Role): LockFile {
    match role
    case Holder(w, name) => (w, name)
    case Remover(w) => (w, Proper(w))
  }

  predicate Acceptable(rules: Rules, s: State, role: Role) {
    role.workspace in s.registered && role.workspace !in s.pending
      && (rules.checkName && role.Holder? ==> role.name == Proper(role.workspace))
  }

  function To(s: State, pid: Pid, phase: Phase): State
    requires pid in s.processes
  {
    s.(processes := s.processes[pid := s.processes[pid].(phase := phase)])
  }

  /** However a process ends, the operating system drops its lock. */
  function Over(s: State, pid: Pid): State
    requires pid in s.processes
  {
    var file := FileOf(s.processes[pid].role);
    var s := To(s, pid, Ended);
    if file in s.owner && s.owner[file] == pid then s.(owner := s.owner - {file}) else s
  }

  /** Takes the lock if it is free, and otherwise goes on waiting. */
  function TryLock(s: State, pid: Pid): State
    requires pid in s.processes
  {
    var file := FileOf(s.processes[pid].role);
    if file in s.owner then s else To(s.(owner := s.owner[file := pid]), pid, Owning)
  }

  function HolderStep(rules: Rules, s: State, pid: Pid): State
    requires pid in s.processes
  {
    var p := s.processes[pid];
    match p.phase
    case Begun => if Acceptable(rules, s, p.role) then To(s, pid, Validated) else Over(s, pid)
    case Validated => TryLock(s, pid)
    case Owning => if rules.validateAgain && !Acceptable(rules, s, p.role) then Over(s, pid) else To(s, pid, Checked)
    case Checked => To(s, pid, Ready)
    case Ready => Over(s, pid)
    case Journalled => s
    case Ended => s
  }

  function RemoverStep(rules: Rules, s: State, pid: Pid): State
    requires pid in s.processes
  {
    var p := s.processes[pid];
    match p.phase
    case Begun => if rules.journalUnderLease then TryLock(s, pid) else To(s, pid, Owning)
    case Owning =>
      if p.role.workspace !in s.registered || p.role.workspace in s.pending then Over(s, pid)
      else To(s.(pending := s.pending + {p.role.workspace}), pid, Journalled)
    case Journalled => Over(s.(pending := s.pending - {p.role.workspace},
                               registered := s.registered - {p.role.workspace}), pid)
    case _ => s
  }

  function Next(rules: Rules, s: State, m: Move): State {
    match m
    case Start(pid, role) => if pid in s.processes then s else s.(processes := s.processes[pid := Process(role, Begun)])
    case Advance(pid) =>
      if pid !in s.processes then s
      else if s.processes[pid].role.Holder? then HolderStep(rules, s, pid) else RemoverStep(rules, s, pid)
    case End(pid) => if pid in s.processes then Over(s, pid) else s
    case Settle(w, finished) =>
      s.(pending := s.pending - {w},
         registered := if finished && w in s.pending then s.registered - {w} else s.registered)
    case Enroll(w) => s.(registered := s.registered + {w})
    case Forget(w) => s.(registered := s.registered - {w})
  }

  const INITIAL := State(map[], map[], {}, {})

  function Run(rules: Rules, moves: seq<Move>): State {
    if moves == [] then INITIAL else Next(rules, Run(rules, moves[..|moves| - 1]), moves[|moves| - 1])
  }

  /**
   What each move does to the registry, workspace by workspace: a journalled removal ends the registration when it
   ends itself, a settled one only if the worktree is gone.
   */
  lemma MovesChangeRegistry(rules: Rules, s: State, m: Move, w: WorkspaceId)
    ensures var removed := m.Advance? && m.pid in s.processes && s.processes[m.pid] == Process(Remover(w), Journalled);
            w in Next(rules, s, m).registered <==>
              || m == Enroll(w)
              || (w in s.registered && m != Forget(w) && !removed && !(m == Settle(w, true) && w in s.pending))
    ensures var removed := m.Advance? && m.pid in s.processes && s.processes[m.pid] == Process(Remover(w), Journalled);
            w in Next(rules, s, m).pending <==>
              || (w in s.pending && !removed && !(m.Settle? && m.workspace == w))
              || (m.Advance? && m.pid in s.processes && s.processes[m.pid] == Process(Remover(w), Owning)
                  && w in s.registered && w !in s.pending)
  {
  }

  /** Nobody has been told READY for a workspace whose removal is journalled. */
  ghost predicate Safe(s: State) {
    forall pid :: pid in s.processes && s.processes[pid].phase == Ready ==>
      s.processes[pid].role.workspace !in s.pending
  }

  // ---- with all rules

  predicate Owns(s: State, pid: Pid, role: Role) {
    FileOf(role) in s.owner && s.owner[FileOf(role)] == pid
  }

  ghost predicate Inv(s: State) {
    forall pid :: pid in s.processes ==> ProcessInv(s, pid)
  }

  ghost predicate ProcessInv(s: State, pid: Pid)
    requires pid in s.processes
  {
    var p := s.processes[pid];
    && (p.phase in {Owning, Checked, Ready, Journalled} ==> Owns(s, pid, p.role))
    && (p.phase in {Checked, Ready} ==> p.role.Holder? && p.role.workspace !in s.pending)
    && (p.role.Holder? && p.phase in {Validated, Owning, Checked, Ready} ==> p.role.name == Proper(p.role.workspace))
  }

  lemma StepKeepsInv(s: State, m: Move)
    requires Inv(s)
    ensures Inv(Next(DISCIPLINED, s, m))
  {
    hide ProcessInv;
    var s' := Next(DISCIPLINED, s, m);
    forall pid | pid in s'.processes ensures ProcessInv(s', pid) {
      match m {
        case Start(started, role) =>
          StartKeeps(s, started, role, pid);
        case Settle(w, finished) =>
          RegistryKeeps(s, m, pid);
        case Enroll(w) =>
          RegistryKeeps(s, m, pid);
        case Forget(w) =>
          RegistryKeeps(s, m, pid);
        case End(ended) =>
          if ended in s.processes {
            OverKeeps(s, ended, pid);
          }
        case Advance(moved) =>
          if moved in s.processes {
            AdvanceKeeps(s, moved, pid);
          }
      }
    }
  }

  lemma StartKeeps(s: State, started: Pid, role: Role, pid: Pid)
    requires Inv(s) && pid in Next(DISCIPLINED, s, Start(started, role)).processes
    ensures ProcessInv(Next(DISCIPLINED, s, Start(started, role)), pid)
  {
    if pid in s.processes {
      assert ProcessInv(s, pid);
    }
  }

  lemma RegistryKeeps(s: State, m: Move, pid: Pid)
    requires Inv(s) && pid in s.processes && (m.Settle? || m.Enroll? || m.Forget?)
    ensures ProcessInv(Next(DISCIPLINED, s, m), pid)
  {
    assert ProcessInv(s, pid);
  }

  lemma OverKeeps(s: State, ended: Pid, pid: Pid)
    requires Inv(s) && pid in s.processes && ended in s.processes
    ensures ProcessInv(Over(s, ended), pid)
  {
    assert ProcessInv(s, pid);
  }

  lemma AdvanceKeeps(s: State, moved: Pid, pid: Pid)
    requires Inv(s) && pid in s.processes && moved in s.processes
    ensures pid in Next(DISCIPLINED, s, Advance(moved)).processes
    ensures ProcessInv(Next(DISCIPLINED, s, Advance(moved)), pid)
  {
    assert ProcessInv(s, pid) && ProcessInv(s, moved);
    var p := s.processes[moved];
    if p.role.Holder? {
      match p.phase {
        case Begun => if !Acceptable(DISCIPLINED, s, p.role) { OverKeeps(s, moved, pid); }
        case Validated =>
        case Owning => if !Acceptable(DISCIPLINED, s, p.role) { OverKeeps(s, moved, pid); }
        case Checked =>
        case Ready => OverKeeps(s, moved, pid);
        case Journalled =>
        case Ended =>
      }
    } else {
      RemoverKeeps(s, moved, pid);
    }
  }

  lemma RemoverKeeps(s: State, moved: Pid, pid: Pid)
    requires Inv(s) && pid in s.processes && moved in s.processes && s.processes[moved].role.Remover?
    ensures pid in RemoverStep(DISCIPLINED, s, moved).processes && ProcessInv(RemoverStep(DISCIPLINED, s, moved), pid)
  {
    assert ProcessInv(s, pid) && ProcessInv(s, moved);
    var p := s.processes[moved];
    if p.phase.Owning? && p.role.workspace in s.pending {
      OverKeeps(s, moved, pid);
    } else if p.phase.Journalled? {
      RegistryKeeps(s, Settle(p.role.workspace, true), pid);
    }
  }

  lemma {:induction false} DisciplinedRunsKeepInv(moves: seq<Move>)
    ensures Inv(Run(DISCIPLINED, moves))
  {
    if moves != [] {
      DisciplinedRunsKeepInv(moves[..|moves| - 1]);
      StepKeepsInv(Run(DISCIPLINED, moves[..|moves| - 1]), moves[|moves| - 1]);
    }
  }

  lemma InvIsSafe(s: State)
    requires Inv(s)
    ensures Safe(s)
  {
    forall pid | pid in s.processes && s.processes[pid].phase == Ready
      ensures s.processes[pid].role.workspace !in s.pending {
      assert ProcessInv(s, pid);
    }
  }

  /** The moment of a client's second validation: it owns the lock, and the registry accepts it. */
  ghost predicate PassedAt(moves: seq<Move>, pid: Pid, k: nat) {
    && k < |moves| && moves[k] == Advance(pid)
    && var s := Run(DISCIPLINED, moves[..k]);
       && pid in s.processes && s.processes[pid].phase == Owning && Owns(s, pid, s.processes[pid].role)
       && var role := s.processes[pid].role;
          && role.workspace in s.registered && role.workspace !in s.pending
          && (role.Holder? ==> role.name == Proper(role.workspace))
  }

  predicate Admitted(s: State, pid: Pid) {
    pid in s.processes && s.processes[pid].role.Holder?
      && (s.processes[pid].phase == Checked || s.processes[pid].phase == Ready)
  }

  /** The only way there is the second validation. */
  lemma AdmissionStep(s: State, m: Move, pid: Pid)
    requires Admitted(Next(DISCIPLINED, s, m), pid)
    ensures pid in s.processes && s.processes[pid].role == Next(DISCIPLINED, s, m).processes[pid].role
    ensures Admitted(s, pid)
            || (m == Advance(pid) && s.processes[pid].phase == Owning
                && Acceptable(DISCIPLINED, s, s.processes[pid].role))
  {
    hide Acceptable;
  }

  /**
   READY is reached only for a workspace that was registered, without pending removal, when validated under
   the lock.
   */
  lemma {:induction false} ReadyWasValidatedUnderLock(moves: seq<Move>, pid: Pid)
    requires Admitted(Run(DISCIPLINED, moves), pid)
    ensures exists k: nat ::
            PassedAt(moves, pid, k)
              && Run(DISCIPLINED, moves[..k]).processes[pid].role == Run(DISCIPLINED, moves).processes[pid].role
  {
    hide Inv, Owns, Acceptable, Next;
    var n := |moves| - 1;
    var s := Run(DISCIPLINED, moves[..n]);
    AdmissionStep(s, moves[n], pid);
    if Admitted(s, pid) {
      ReadyWasValidatedUnderLock(moves[..n], pid);
      var k: nat :| PassedAt(moves[..n], pid, k)
        && Run(DISCIPLINED, moves[..n][..k]).processes[pid].role == s.processes[pid].role;
      assert moves[..n][..k] == moves[..k];
      assert PassedAt(moves, pid, k);
    } else {
      DisciplinedRunsKeepInv(moves[..n]);
      OwningOwns(s, pid);
      AcceptableMeans(s, s.processes[pid].role);
      assert PassedAt(moves, pid, n);
    }
  }

  lemma AcceptableMeans(s: State, role: Role)
    ensures Acceptable(DISCIPLINED, s, role) <==>
              && role.workspace in s.registered && role.workspace !in s.pending
              && (role.Holder? ==> role.name == Proper(role.workspace))
  {
  }

  lemma OwningOwns(s: State, pid: Pid)
    requires Inv(s) && pid in s.processes && s.processes[pid].phase == Owning
    ensures Owns(s, pid, s.processes[pid].role)
  {
    assert ProcessInv(s, pid);
  }

  /** A workspace's session is held by at most one client at a time. */
  lemma LeasesAreExclusive(moves: seq<Move>, a: Pid, b: Pid)
    requires var s := Run(DISCIPLINED, moves);
             && a in s.processes && b in s.processes && s.processes[a].phase == Ready && s.processes[b].phase == Ready
             && s.processes[a].role.workspace == s.processes[b].role.workspace
    ensures a == b
  {
    DisciplinedRunsKeepInv(moves);
    assert ProcessInv(Run(DISCIPLINED, moves), a) && ProcessInv(Run(DISCIPLINED, moves), b);
  }

  // ---- without one of them

  lemma RunStep(rules: Rules, moves: seq<Move>, m: Move)
    ensures Run(rules, moves + [m]) == Next(rules, Run(rules, moves), m)
  {
    assert (moves + [m])[..|moves|] == moves;
  }

  /**
   The client validates first, then a removal is journalled by a helper that dies, and then the client gets
   the lock.
   */
  const OVERTAKEN: seq<Move> := [Enroll(7), Start(1, Holder(7, Proper(7))), Advance(1), Start(2, Remover(7)),
                                 Advance(2), Advance(2), End(2), Advance(1), Advance(1), Advance(1)]

  lemma OneValidationIsUnsafe(rules: Rules)
    requires !rules.validateAgain
    ensures !Safe(Run(rules, OVERTAKEN))
  {
    var s := Run10(rules, OVERTAKEN);
    assert s.processes[1].phase == Ready && 7 in s.pending;
  }

  /** The client asks for another name's lock file, and the helper does not notice. */
  const MISNAMED: seq<Move> := [Enroll(7), Start(1, Holder(7, Other("x"))), Advance(1), Advance(1), Advance(1),
                                Advance(1), Start(2, Remover(7)), Advance(2), Advance(2), End(2)]

  lemma AnyNameIsUnsafe(rules: Rules)
    requires !rules.checkName
    ensures !Safe(Run(rules, MISNAMED))
  {
    var s := Run10(rules, MISNAMED);
    assert s.processes[1].phase == Ready && 7 in s.pending;
  }

  /** The helper journals beside a client that is holding the session. */
  const BARGING: seq<Move> := [Enroll(7), Start(1, Holder(7, Proper(7))), Advance(1), Advance(1), Advance(1),
                               Advance(1), Start(2, Remover(7)), Advance(2), Advance(2), End(2)]

  lemma JournallingWithoutLeaseIsUnsafe(rules: Rules)
    requires !rules.journalUnderLease
    ensures !Safe(Run(rules, BARGING))
  {
    var s := Run10(rules, BARGING);
    assert s.processes[1].phase == Ready && 7 in s.pending;
  }

  lemma RunAt(rules: Rules, m: seq<Move>, i: nat)
    requires i < |m|
    ensures Run(rules, m[..i + 1]) == Next(rules, Run(rules, m[..i]), m[i])
  {
    assert m[..i + 1][..i] == m[..i];
  }

  /** Ten moves, one after the other. */
  lemma Run10(rules: Rules, m: seq<Move>) returns (s: State)
    requires |m| == 10
    ensures s == Run(rules, m)
    ensures var s1 := Next(rules, INITIAL, m[0]);
            var s2 := Next(rules, s1, m[1]);
            var s3 := Next(rules, s2, m[2]);
            var s4 := Next(rules, s3, m[3]);
            var s5 := Next(rules, s4, m[4]);
            var s6 := Next(rules, s5, m[5]);
            var s7 := Next(rules, s6, m[6]);
            var s8 := Next(rules, s7, m[7]);
            var s9 := Next(rules, s8, m[8]);
            s == Next(rules, s9, m[9])
  {
    hide Next;
    assert Run(rules, m[..0]) == INITIAL;
    hide Run;
    RunAt(rules, m, 0);
    RunAt(rules, m, 1);
    RunAt(rules, m, 2);
    RunAt(rules, m, 3);
    RunAt(rules, m, 4);
    RunAt(rules, m, 5);
    RunAt(rules, m, 6);
    RunAt(rules, m, 7);
    RunAt(rules, m, 8);
    RunAt(rules, m, 9);
    assert m[..10] == m;
    s := Run(rules, m);
  }

  /**
   READY and a journalled removal of the same workspace exclude each other in every run, exactly when all
   three rules are kept.
   */
  lemma SafeExactlyWithAllRules(rules: Rules)
    ensures (forall moves :: Safe(Run(rules, moves))) <==> rules == DISCIPLINED
  {
    hide Run;
    if rules == DISCIPLINED {
      forall moves ensures Safe(Run(rules, moves)) {
        DisciplinedRunsKeepInv(moves);
        InvIsSafe(Run(rules, moves));
      }
    } else if !rules.validateAgain {
      OneValidationIsUnsafe(rules);
    } else if !rules.checkName {
      AnyNameIsUnsafe(rules);
    } else {
      JournallingWithoutLeaseIsUnsafe(rules);
    }
  }

  // ---- one lease from beginning to end, among all the others

  datatype LeaseError = Refused | Busy | WriteFailed | ChannelFailed

  datatype Read = Bytes | Interrupted | Eof | Broken

  predicate About(m: Move, pid: Pid) {
    (m.Start? || m.Advance? || m.End?) && m.pid == pid
  }

  /** Nothing that is left to others is held back. */
  lemma {:induction false} OthersMayDoAnything(pid: Pid, moves: seq<Move>)
    requires forall m :: m in moves ==> m != Advance(pid) && m != End(pid) && !(m.Start? && m.pid == pid)
    ensures Others(pid, moves) == moves
  {
    if moves != [] {
      OthersMayDoAnything(pid, moves[..|moves| - 1]);
    }
  }

  /** What others do leaves a process its phase, and its lock while it needs it. */
  lemma OthersLeaveAlone(s: State, m: Move, pid: Pid)
    requires Inv(s) && pid in s.processes && !About(m, pid)
    ensures var s' := Next(DISCIPLINED, s, m);
            && pid in s'.processes && s'.processes[pid] == s.processes[pid]
            && (Owns(s, pid, s.processes[pid].role) ==> Owns(s', pid, s.processes[pid].role))
  {
    if m.Advance? && m.pid in s.processes {
      assert ProcessInv(s, m.pid);
    }
  }

  /** What others do, as far as it is theirs to do. */
  function Others(pid: Pid, moves: seq<Move>): seq<Move> {
    if moves == [] then []
    else Others(pid, moves[..|moves| - 1]) + if About(moves[|moves| - 1], pid) then [] else [moves[|moves| - 1]]
  }

  /** Tries for the lock, each after a wait in which others act. */
  function Tries(pid: Pid, waits: seq<seq<Move>>): seq<Move> {
    if waits == [] then []
    else Tries(pid, waits[..|waits| - 1]) + Others(pid, waits[|waits| - 1]) + [Advance(pid)]
  }

  /** How many messages of the client are read: up to the one that ends the lease. */
  function Heard(input: seq<(Read, seq<Move>)>): nat {
    if input == [] then 0
    else if input[0].0.Eof? || input[0].0.Broken? then 1
    else 1 + Heard(input[1..])
  }

  lemma {:induction false} HeardIsFirstEnd(input: seq<(Read, seq<Move>)>)
    ensures Heard(input) <= |input|
    ensures forall i :: 0 <= i < Heard(input) - 1 ==> input[i].0.Bytes? || input[i].0.Interrupted?
    ensures Heard(input) < |input| ==> Heard(input) > 0
    ensures Heard(input) < |input| ==> input[Heard(input) - 1].0.Eof? || input[Heard(input) - 1].0.Broken?
  {
    if input != [] && !(input[0].0.Eof? || input[0].0.Broken?) {
      HeardIsFirstEnd(input[1..]);
      assert forall i :: 0 < i < |input| ==> input[i] == input[1..][i - 1];
    }
  }

  /** What others do while the client is listened to. */
  function Meanwhile(pid: Pid, input: seq<(Read, seq<Move>)>): seq<Move> {
    if input == [] then []
    else Meanwhile(pid, input[..|input| - 1]) + Others(pid, input[|input| - 1].1)
  }

  /** The host as all helpers see it, with everything that has happened. */
  class Host {
    var state: State
    ghost var moves: seq<Move>

    constructor ()
      ensures Valid() && state == INITIAL
    {
      state, moves := INITIAL, [];
    }

    ghost predicate Valid()
      reads this
    {
      state == Run(DISCIPLINED, moves) && Inv(state)
    }

    method Do(m: Move)
      requires Valid()
      modifies this
      ensures Valid() && state == Next(DISCIPLINED, old(state), m) && moves == old(moves) + [m]
    {
      hide Next, Inv, Run;
      RunStep(DISCIPLINED, moves, m);
      StepKeepsInv(state, m);
      state := Next(DISCIPLINED, state, m);
      moves := moves + [m];
    }

    /** Other processes take steps. */
    method LetOthers(pid: Pid, others: seq<Move>)
      requires Valid() && pid in state.processes
      modifies this
      ensures Valid() && moves == old(moves) + Others(pid, others)
      ensures pid in state.processes && state.processes[pid] == old(state).processes[pid]
      ensures Owns(old(state), pid, state.processes[pid].role) ==> Owns(state, pid, state.processes[pid].role)
    {
      hide Next, Inv, Run;
      for i := 0 to |others|
        invariant Valid() && moves == old(moves) + Others(pid, others[..i])
        invariant pid in state.processes && state.processes[pid] == old(state).processes[pid]
        invariant Owns(old(state), pid, state.processes[pid].role) ==> Owns(state, pid, state.processes[pid].role)
      {
        assert others[..i + 1][..i] == others[..i];
        if !About(others[i], pid) {
          OthersLeaveAlone(state, others[i], pid);
          Do(others[i]);
        }
      }
      assert others[..|others|] == others;
    }

    /**
     Holds a lease until the client closes its end. `waits` are what others do between two tries for the lock,
     `gaps` what they do around the second validation and the READY line, `input` what the client sends.
     From READY on until the end, the lock was owned and no removal of the workspace was journalled.
     */
    method HoldSessionLease(pid: Pid, workspace: WorkspaceId, name: SessionName, waits: seq<seq<Move>>,
                            gaps: (seq<Move>, seq<Move>), written: bool, input: seq<(Read, seq<Move>)>)
      returns (r: Result<(), LeaseError>, ghost during: seq<State>, ghost tries: nat)
      requires Valid() && pid !in state.processes
      modifies this
      ensures Valid() && old(moves) <= moves
      ensures pid in state.processes && state.processes[pid] == Process(Holder(workspace, name), Ended)
      ensures forall i :: 0 <= i < |during| ==>
                workspace !in during[i].pending && Owns(during[i], pid, Holder(workspace, name))
      ensures during != [] ==> name == Proper(workspace)
      ensures r.Ok? ==> during != []
      ensures name != Proper(workspace) || workspace !in old(state).registered || workspace in old(state).pending ==>
                r == Err(Refused)
      ensures Leased(old(moves), moves, pid, Holder(workspace, name), waits, gaps, written, input, tries, r, during)
    {
      hide Inv, Run, Others, Tries, Meanwhile, Heard, HeldUntilClosed, IsPhase, TryLock, FileOf;
      during, tries := [], 0;
      var role := Holder(workspace, name);
      Do(Start(pid, role));
      var accepted := Acceptable(DISCIPLINED, state, role);
      Do(Advance(pid));
      if !accepted {
        return Err(Refused), during, 0;
      }
      tries := TryUntilOwned(pid, role, waits);
      if state.processes[pid].phase == Validated {
        Do(End(pid));
        return Err(Busy), during, tries;
      }
      LetOthers(pid, gaps.0);
      accepted := Acceptable(DISCIPLINED, state, role);
      Do(Advance(pid));
      if !accepted {
        return Err(Refused), during, tries;
      }
      LetOthers(pid, gaps.1);
      if !written {
        Do(End(pid));
        return Err(WriteFailed), during, tries;
      }
      Do(Advance(pid));
      r, during := KeepUntilClosed(pid, role, input);
    }

    /** Tries for the lock, once after each wait, until it is owned. */
    method TryUntilOwned(pid: Pid, role: Role, waits: seq<seq<Move>>) returns (ghost tries: nat)
      requires Valid() && pid in state.processes && state.processes[pid] == Process(role, Validated) && role.Holder?
      modifies this
      ensures Valid() && pid in state.processes && state.processes[pid].role == role
      ensures tries <= |waits| && moves == old(moves) + Tries(pid, waits[..tries])
      ensures state.processes[pid].phase == (if IsPhase(moves, pid, Validated) then Validated else Owning)
      ensures IsPhase(moves, pid, Validated) ==> tries == |waits|
      ensures forall k :: 0 <= k < tries ==> IsPhase(old(moves) + Tries(pid, waits[..k]), pid, Validated)
    {
      hide Inv, Run, Others, Tries;
      var i := 0;
      tries := 0;
      NoTriesYet(pid, waits);
      while i < |waits| && state.processes[pid].phase == Validated
        invariant i <= |waits| && tries == i && Valid() && pid in state.processes && state.processes[pid].role == role
        invariant moves == old(moves) + Tries(pid, waits[..i])
        invariant state.processes[pid].phase == Validated || state.processes[pid].phase == Owning
        invariant forall k :: 0 <= k < i ==> IsPhase(old(moves) + Tries(pid, waits[..k]), pid, Validated)
      {
        OneMoreTry(pid, waits, i);
        assert IsPhase(moves, pid, Validated) by { PhaseNow(moves, pid); }
        LetOthers(pid, waits[i]);
        Do(Advance(pid));
        i := i + 1;
        tries := i;
      }
      PhaseNow(moves, pid);
    }

    /** Reads until the client closes its end; the lease is kept all the while. */
    method KeepUntilClosed(pid: Pid, role: Role, input: seq<(Read, seq<Move>)>)
      returns (r: Result<(), LeaseError>, ghost during: seq<State>)
      requires Valid() && pid in state.processes && state.processes[pid] == Process(role, Ready) && role.Holder?
      modifies this
      ensures Valid() && old(moves) <= moves
      ensures pid in state.processes && state.processes[pid] == Process(role, Ended)
      ensures forall i :: 0 <= i < |during| ==> role.workspace !in during[i].pending && Owns(during[i], pid, role)
      ensures during != [] && role.name == Proper(role.workspace)
      ensures HeldUntilClosed(old(moves), moves, pid, input, r, during)
    {
      hide Inv, Run, Owns, Others, Meanwhile, Heard;
      ReadyHolds(state, pid);
      NothingMeanwhile(pid, input);
      during := [state];
      for k := 0 to |input|
        invariant Valid() && moves == old(moves) + Meanwhile(pid, input[..k]) && pid in state.processes
        invariant state.processes[pid] == Process(role, Ready)
        invariant |during| == k + 1
        invariant forall j :: 0 <= j < |during| ==> role.workspace !in during[j].pending && Owns(during[j], pid, role)
        invariant forall j :: 0 <= j < |during|
                    ==> during[j] == Run(DISCIPLINED, old(moves) + Meanwhile(pid, input[..j]))
        invariant Heard(input) == k + Heard(input[k..])
        invariant forall j :: 0 <= j < k ==> !input[j].0.Eof? && !input[j].0.Broken?
      {
        OneMoreHeard(pid, input, k);
        LetOthers(pid, input[k].1);
        assert moves == old(moves) + Meanwhile(pid, input[..k + 1]);
        ReadyHolds(state, pid);
        during := during + [state];
        match input[k].0 {
          case Bytes =>
          case Interrupted =>
          case Broken =>
            Do(End(pid));
            return Err(ChannelFailed), during;
          case Eof =>
            Do(Advance(pid));
            return Ok(()), during;
        }
      }
      NothingHeard(input);
      assert input[..|input|] == input;
      Do(End(pid));
      return Err(ChannelFailed), during;
    }
  }

  predicate IsPhase(moves: seq<Move>, pid: Pid, phase: Phase) {
    var s := Run(DISCIPLINED, moves);
    pid in s.processes && s.processes[pid].phase == phase
  }

  lemma PhaseNow(moves: seq<Move>, pid: Pid)
    requires pid in Run(DISCIPLINED, moves).processes
    ensures IsPhase(moves, pid, Run(DISCIPLINED, moves).processes[pid].phase)
  {
  }

  lemma NoTriesYet(pid: Pid, waits: seq<seq<Move>>)
    ensures Tries(pid, waits[..0]) == []
  {
  }

  lemma OneMoreTry(pid: Pid, waits: seq<seq<Move>>, i: nat)
    requires i < |waits|
    ensures Tries(pid, waits[..i + 1]) == Tries(pid, waits[..i]) + Others(pid, waits[i]) + [Advance(pid)]
  {
    assert waits[..i + 1][..i] == waits[..i];
  }

  lemma NothingMeanwhile(pid: Pid, input: seq<(Read, seq<Move>)>)
    ensures Meanwhile(pid, input[..0]) == [] && input[0..] == input
  {
  }

  lemma OneMoreHeard(pid: Pid, input: seq<(Read, seq<Move>)>, k: nat)
    requires k < |input|
    ensures Meanwhile(pid, input[..k + 1]) == Meanwhile(pid, input[..k]) + Others(pid, input[k].1)
    ensures Heard(input[k..]) == if input[k].0.Eof? || input[k].0.Broken? then 1 else 1 + Heard(input[k + 1..])
  {
    assert input[..k + 1][..k] == input[..k];
    assert input[k..][1..] == input[k + 1..];
  }

  lemma NothingHeard(input: seq<(Read, seq<Move>)>)
    ensures Heard(input[|input|..]) == 0
  {
  }

  /** From READY on: what was read, what others did, how it ended, and the states seen on the way. */
  ghost predicate HeldUntilClosed(before: seq<Move>, after: seq<Move>, pid: Pid, input: seq<(Read, seq<Move>)>,
                                  r: Result<(), LeaseError>, during: seq<State>) {
    var n := Heard(input);
    && n <= |input| && |during| == n + 1
    && (r.Ok? <==> n > 0 && input[n - 1].0.Eof?)
    && (r.Err? ==> r.error == ChannelFailed)
    && after == before + Meanwhile(pid, input[..n]) + [if r.Ok? then Advance(pid) else End(pid)]
    && forall j :: 0 <= j <= n ==> during[j] == Run(DISCIPLINED, before + Meanwhile(pid, input[..j]))
  }

  /** The whole lease: every move the helper makes among those of others, and the answer that follows from them. */
  ghost predicate Leased(before: seq<Move>, after: seq<Move>, pid: Pid, role: Role, waits: seq<seq<Move>>,
                         gaps: (seq<Move>, seq<Move>), written: bool, input: seq<(Read, seq<Move>)>, tries: nat,
                         r: Result<(), LeaseError>, during: seq<State>) {
    var begun := before + [Start(pid, role)] + [Advance(pid)];
    if !Acceptable(DISCIPLINED, Run(DISCIPLINED, before + [Start(pid, role)]), role) then
      r == Err(Refused) && after == begun && during == []
    else
      && tries <= |waits|
      && (forall k :: 0 <= k < tries ==> IsPhase(begun + Tries(pid, waits[..k]), pid, Validated))
      && var tried := begun + Tries(pid, waits[..tries]);
         if IsPhase(tried, pid, Validated) then
           tries == |waits| && r == Err(Busy) && after == tried + [End(pid)] && during == []
         else
           var met := tried + Others(pid, gaps.0);
           var checked := met + [Advance(pid)] + Others(pid, gaps.1);
           if !Acceptable(DISCIPLINED, Run(DISCIPLINED, met), role) then
             r == Err(Refused) && after == met + [Advance(pid)] && during == []
           else if !written then
             r == Err(WriteFailed) && after == checked + [End(pid)] && during == []
           else HeldUntilClosed(checked + [Advance(pid)], after, pid, input, r, during)
  }

  lemma ReadyHolds(s: State, pid: Pid)
    requires Inv(s) && pid in s.processes && s.processes[pid].phase == Ready
    ensures s.processes[pid].role.workspace !in s.pending && Owns(s, pid, s.processes[pid].role)
    ensures s.processes[pid].role.name == Proper(s.processes[pid].role.workspace)
  {
    assert ProcessInv(s, pid);
  }
}

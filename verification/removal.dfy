/**
 Removing a worktree: the intent is journalled before the removal is dispatched, and a later
 authoritative listing settles whatever a lost or failed removal left behind.
 */
module Removal {
  import opened Prelude
  import opened StableSort

  type WorkspaceId = nat
  type HostId = nat
  type RepositoryId = nat

  /** A path split into its components; paths are compared in this form. */
  datatype Path = Path(absolute: bool, components: seq<string>)

  datatype Workspace = Workspace(host: HostId, rootPath: string, repository: Option<RepositoryId>)

  datatype Intent = Intent(workspace: WorkspaceId, survivor: WorkspaceId, host: HostId, repository: RepositoryId,
                           key: string, targetPath: string, survivingPath: string)

  datatype Error =
    | NoLocalHost
    | SameWorkspace
    | KeyNotAbsolute
    | AlreadyPending
    | NotRegistered
    | WrongHost
    | WrongPath
    | NoRepository
    | DifferentRepository
    | MarkerMissing
    | MarkerChanged
    | TargetChanged
    | NothingToRecover
    | SurvivorChanged
    | NotAuthoritative
    | PathUnavailable
    | ListFailed
    | FileProtection
    | NoSurvivor
    | SessionsOpen
    | Refused
    | CommandFailed
    | PlanChanged
    | Died

  /** How the dispatched removal command ends: the helper may die or lose it, it may fail, or succeed. */
  datatype Command = Lost | Failed | Succeeded

  datatype Session = Session(zellij: bool, exited: bool)

  /** `Preview` shows the token that approves the exact removal. */
  datatype Outcome = Preview(token: string) | Removed

  datatype Decision = Required(token: string) | Authorized

  /** The moments of a removal between which other helpers may change the registry and the disk. */
  datatype Stage = First | UnderLease | UnderLock | Journalling | Finishing

  /** Everything a removal meets: the disk and the other helpers' work at each moment, and the answers it gets. */
  datatype Outside = Outside(paths: Stage -> Paths, others: (Stage, Tables) -> Tables, lease: Result<(), Error>,
                             sessions: seq<Session>, token: Result<string, Error>, approval: Result<(), Error>,
                             command: Command, now: int, journalFault: bool, finishFault: bool)

  /** The two registry tables; intents survive the deletion of the workspace they repair. */
  datatype Tables = Tables(workspaces: map<WorkspaceId, Workspace>, intents: map<WorkspaceId, Intent>)

  /** How paths read: their components, the repository at a path, and the identity of a repository. */
  datatype Paths = Paths(parse: string -> Path, canonical: string -> Result<Path, Error>,
                         key: Path -> Result<string, Error>)

  ghost predicate Keyed(t: Tables) {
    forall id :: id in t.intents ==> t.intents[id].workspace == id
  }

  function PendingFor(t: Tables, key: string): set<WorkspaceId> {
    set id | id in t.intents && t.intents[id].key == key
  }

  predicate Present(parse: string -> Path, listed: seq<Path>, intent: Intent) {
    parse(intent.targetPath) in listed
  }

  /** Pending removals whose worktree is gone. */
  function AbsentFor(t: Tables, key: string, parse: string -> Path, listed: seq<Path>): set<WorkspaceId> {
    set id | id in PendingFor(t, key) && !Present(parse, listed, t.intents[id])
  }

  /** The intents in `done` are settled: cancelled, or finished together with their workspace. */
  function SettledTo(t: Tables, done: set<WorkspaceId>, absent: set<WorkspaceId>): Tables {
    Tables(t.workspaces - (done * absent), t.intents - done)
  }

  /** No intent of the repository is left, and exactly the absent ones lost their workspace. */
  function Reconciled(t: Tables, key: string, parse: string -> Path, listed: seq<Path>): Tables {
    SettledTo(t, PendingFor(t, key), AbsentFor(t, key, parse, listed))
  }

  ghost predicate PartlyReconciled(t: Tables, key: string, parse: string -> Path, listed: seq<Path>, t': Tables) {
    exists done :: done <= PendingFor(t, key) && t' == SettledTo(t, done, AbsentFor(t, key, parse, listed))
  }

  /** By creation time, and by workspace within the same moment. */
  predicate Older(created: WorkspaceId -> int, a: WorkspaceId, b: WorkspaceId) {
    created(a) < created(b) || (created(a) == created(b) && a <= b)
  }

  ghost predicate OldestFirst(created: WorkspaceId -> int, order: seq<WorkspaceId>) {
    forall i, j :: 0 <= i < j < |order| ==> order[i] != order[j] && Older(created, order[i], order[j])
  }

  predicate TargetUnchanged(w: Workspace, intent: Intent) {
    w.host == intent.host && w.rootPath == intent.targetPath && w.repository == Some(intent.repository)
  }

  /** Every workspace about to be deleted is still the one its intent names, or already gone. */
  predicate Cleanable(t: Tables, key: string, parse: string -> Path, listed: seq<Path>) {
    forall id :: id in AbsentFor(t, key, parse, listed) && id in t.workspaces ==>
      TargetUnchanged(t.workspaces[id], t.intents[id])
  }

  predicate Authoritative(listed: seq<Path>, repository: Path) {
    (forall i :: 0 <= i < |listed| ==> listed[i].absolute) && repository in listed
  }

  lemma AuthorityMeans(listed: seq<Path>, repository: Path)
    ensures Authoritative(listed, repository) <==>
              repository in listed && forall path :: path in listed ==> path.absolute
  {
  }

  // ---- settling one by one, among others

  /** What other helpers make of the tables before settlement `n`. */
  type Others = (nat, Tables) -> Tables

  /** The transaction goes through: the intent is the stored one, and a workspace about to be deleted is as recorded. */
  predicate CanSettle(t: Tables, parse: string -> Path, listed: seq<Path>, intent: Intent) {
    var id := intent.workspace;
    && id in t.intents && t.intents[id] == intent
    && (Present(parse, listed, intent) || id !in t.workspaces || TargetUnchanged(t.workspaces[id], intent))
  }

  function Settle(t: Tables, parse: string -> Path, listed: seq<Path>, intent: Intent): Tables {
    SettledTo(t, {intent.workspace}, if Present(parse, listed, intent) then {} else {intent.workspace})
  }

  /** The tables after the first `k` settlements. */
  function Settling(t: Tables, parse: string -> Path, listed: seq<Path>, removals: seq<Intent>, others: Others,
                    k: nat): Tables
    requires k <= |removals|
    decreases k, 0
  {
    if k == 0 then t else Settle(Met(t, parse, listed, removals, others, k - 1), parse, listed, removals[k - 1])
  }

  /** The tables that settlement `k` meets. */
  function Met(t: Tables, parse: string -> Path, listed: seq<Path>, removals: seq<Intent>, others: Others,
               k: nat): Tables
    requires k < |removals|
    decreases k, 1
  {
    others(k, Settling(t, parse, listed, removals, others, k))
  }

  lemma SettlingStart(t: Tables, parse: string -> Path, listed: seq<Path>, removals: seq<Intent>, others: Others)
    ensures Settling(t, parse, listed, removals, others, 0) == t
  {
  }

  lemma SettlingNext(t: Tables, parse: string -> Path, listed: seq<Path>, removals: seq<Intent>, others: Others, k: nat)
    requires k < |removals|
    ensures Met(t, parse, listed, removals, others, k) == others(k, Settling(t, parse, listed, removals, others, k))
    ensures Settling(t, parse, listed, removals, others, k + 1)
         == Settle(Met(t, parse, listed, removals, others, k), parse, listed, removals[k])
  {
  }

  ghost predicate KeepKeyed(others: Others) {
    forall n, t :: Keyed(t) ==> Keyed(others(n, t))
  }

  ghost predicate Quiet(others: Others) {
    forall n, t :: others(n, t) == t
  }

  /** Nobody else touches the intents of this repository: to do so, a helper needs the repository's lock. */
  ghost predicate SpareIntents(others: Others, key: string) {
    forall n, t :: SameIntents(t, others(n, t), key)
  }

  predicate SameIntents(t: Tables, t': Tables, key: string) {
    PendingFor(t', key) == PendingFor(t, key) && forall id :: id in PendingFor(t, key) ==>
      t'.intents[id] == t.intents[id]
  }

  /** The intents of the repository, oldest first; the first `k` have been settled, and others may have moved since. */
  ghost predicate SettledSoFar(t: Tables, key: string, parse: string -> Path, listed: seq<Path>,
                               created: WorkspaceId -> int,
                               others: Others, order: seq<WorkspaceId>, k: nat, t': Tables) {
    && OldestFirst(created, order) && Elements(order) == PendingFor(t, key) && k <= |order|
    && var removals := IntentsOf(t.intents, order);
       || t' == Settling(t, parse, listed, removals, others, k)
       || (k < |order| && t' == Met(t, parse, listed, removals, others, k))
  }

  /** Every settlement goes through. */
  ghost predicate AllSettle(t: Tables, key: string, parse: string -> Path, listed: seq<Path>, others: Others,
                            order: seq<WorkspaceId>)
    requires Elements(order) <= t.intents.Keys
  {
    var removals := IntentsOf(t.intents, order);
    forall i :: 0 <= i < |order| ==> CanSettle(Met(t, parse, listed, removals, others, i), parse, listed, removals[i])
  }

  /**
   While the lock is held, what is settled stays settled, what is not stays pending, and only a changed
   workspace can refuse.
   */
  lemma {:induction false} SettledStaysSettled(t: Tables, key: string, parse: string -> Path, listed: seq<Path>,
                                               others: Others, order: seq<WorkspaceId>, k: nat)
    requires Elements(order) == PendingFor(t, key) && (forall i, j :: 0 <= i < j < |order| ==> order[i] != order[j])
    requires Keyed(t) && SpareIntents(others, key) && k <= |order|
    ensures var removals := IntentsOf(t.intents, order);
            && PendingFor(Settling(t, parse, listed, removals, others, k), key)
                 == PendingFor(t, key) - Elements(order[..k])
            && (forall id :: id in PendingFor(t, key) - Elements(order[..k]) ==>
                 Settling(t, parse, listed, removals, others, k).intents[id] == t.intents[id])
            && (k < |order| ==>
                 var met, id := Met(t, parse, listed, removals, others, k), order[k];
                 && PendingFor(met, key) == PendingFor(t, key) - Elements(order[..k])
                 && (CanSettle(met, parse, listed, removals[k]) <==>
                       parse(t.intents[id].targetPath) in listed || id !in met.workspaces
                         || TargetUnchanged(met.workspaces[id], t.intents[id])))
  {
    hide TargetUnchanged;
    var removals := IntentsOf(t.intents, order);
    if k > 0 {
      SettledStaysSettled(t, key, parse, listed, others, order, k - 1);
      ElementsOfPrefixes(order, k - 1);
      var met := Met(t, parse, listed, removals, others, k - 1);
      assert SameIntents(Settling(t, parse, listed, removals, others, k - 1), met, key);
      SettlingOnePending(met, key, parse, listed, removals[k - 1]);
    }
    if k < |order| {
      ElementsOfPrefixes(order, k);
      assert SameIntents(Settling(t, parse, listed, removals, others, k), Met(t, parse, listed, removals, others, k),
                         key);
    }
  }

  lemma SettlingOnePending(t: Tables, key: string, parse: string -> Path, listed: seq<Path>, intent: Intent)
    ensures PendingFor(Settle(t, parse, listed, intent), key) == PendingFor(t, key) - {intent.workspace}
    ensures forall id :: id in PendingFor(t, key) - {intent.workspace} ==>
              Settle(t, parse, listed, intent).intents[id] == t.intents[id]
  {
  }

  /** If nobody else moves, the settlements add up to the reconciled tables. */
  lemma {:induction false} QuietSettling(t: Tables, key: string, parse: string -> Path, listed: seq<Path>,
                                         others: Others, order: seq<WorkspaceId>, k: nat)
    requires Elements(order) == PendingFor(t, key) && (forall i, j :: 0 <= i < j < |order| ==> order[i] != order[j])
    requires Keyed(t) && Quiet(others) && k <= |order|
    ensures Settling(t, parse, listed, IntentsOf(t.intents, order), others, k)
         == SettledTo(t, Elements(order[..k]), AbsentFor(t, key, parse, listed))
  {
    hide SettledTo, AbsentFor, Present, PendingFor, Keyed, Elements;
    if k == 0 {
      NothingYet(order);
      SettlingNothing(t, key, parse, listed);
    } else {
      QuietSettling(t, key, parse, listed, others, order, k - 1);
      ElementsOfPrefixes(order, k - 1);
      StillPending(t, key, parse, listed, Elements(order[..k - 1]), order[k - 1]);
      SettledOneMore(t, Elements(order[..k - 1]), AbsentFor(t, key, parse, listed), order[k - 1]);
    }
  }

  lemma QuietCanSettle(t: Tables, key: string, parse: string -> Path, listed: seq<Path>, others: Others,
                       order: seq<WorkspaceId>, i: nat)
    requires Elements(order) == PendingFor(t, key) && (forall i, j :: 0 <= i < j < |order| ==> order[i] != order[j])
    requires Keyed(t) && Quiet(others) && i < |order|
    ensures var removals, id := IntentsOf(t.intents, order), order[i];
            CanSettle(Met(t, parse, listed, removals, others, i), parse, listed, removals[i]) <==>
              (id in AbsentFor(t, key, parse, listed) && id in t.workspaces ==>
                TargetUnchanged(t.workspaces[id], t.intents[id]))
  {
    hide SettledTo, AbsentFor, Present, PendingFor, Keyed, Elements, TargetUnchanged;
    QuietSettling(t, key, parse, listed, others, order, i);
    ElementsOfPrefixes(order, i);
    StillPending(t, key, parse, listed, Elements(order[..i]), order[i]);
  }

  lemma QuietAllSettle(t: Tables, key: string, parse: string -> Path, listed: seq<Path>, others: Others,
                       order: seq<WorkspaceId>)
    requires Elements(order) == PendingFor(t, key) && (forall i, j :: 0 <= i < j < |order| ==> order[i] != order[j])
    requires Keyed(t) && Quiet(others)
    ensures AllSettle(t, key, parse, listed, others, order) <==> Cleanable(t, key, parse, listed)
  {
    hide TargetUnchanged, CanSettle, Present, Keyed;
    forall i | 0 <= i < |order|
      ensures var removals, id := IntentsOf(t.intents, order), order[i];
              CanSettle(Met(t, parse, listed, removals, others, i), parse, listed, removals[i]) <==>
                (id in AbsentFor(t, key, parse, listed) && id in t.workspaces ==>
                  TargetUnchanged(t.workspaces[id], t.intents[id]))
    {
      QuietCanSettle(t, key, parse, listed, others, order, i);
    }
    forall id | id in AbsentFor(t, key, parse, listed) ensures exists i :: 0 <= i < |order| && order[i] == id {
      assert id in Elements(order);
    }
    forall i | 0 <= i < |order| ensures order[i] in PendingFor(t, key) {
      assert order[i] in Elements(order);
    }
  }

  /** Interrupted or not, what a reconciliation leaves when nobody else moves. */
  lemma QuietReconciliation(t: Tables, key: string, parse: string -> Path, listed: seq<Path>,
                            created: WorkspaceId -> int, others: Others, order: seq<WorkspaceId>, k: nat, t': Tables)
    requires Keyed(t) && Quiet(others) && SettledSoFar(t, key, parse, listed, created, others, order, k, t')
    ensures PartlyReconciled(t, key, parse, listed, t')
    ensures k == |order| ==> t' == Reconciled(t, key, parse, listed)
    ensures AllSettle(t, key, parse, listed, others, order) <==> Cleanable(t, key, parse, listed)
  {
    hide SettledTo, PendingFor, AbsentFor, Keyed, Elements, Older, PartlyReconciled, Reconciled, AllSettle, Cleanable;
    OrderIsDistinct(created, order);
    QuietSettling(t, key, parse, listed, others, order, k);
    QuietAllSettle(t, key, parse, listed, others, order);
    PrefixWithin(order, k);
    PartlySettled(t, key, parse, listed, Elements(order[..k]));
    assert k == |order| ==> order[..k] == order;
  }

  lemma PrefixWithin(order: seq<WorkspaceId>, k: nat)
    requires k <= |order|
    ensures Elements(order[..k]) <= Elements(order)
  {
  }

  // ---- properties of the reconciled tables

  /** An interrupted reconciliation changes nothing about where a later one on the same listing ends. */
  lemma InterruptionIsInvisible(t: Tables, key: string, parse: string -> Path, listed: seq<Path>, t': Tables)
    requires PartlyReconciled(t, key, parse, listed, t')
    ensures Reconciled(t', key, parse, listed) == Reconciled(t, key, parse, listed)
    ensures Cleanable(t, key, parse, listed) ==> Cleanable(t', key, parse, listed)
  {
    var done :| done <= PendingFor(t, key) && t' == SettledTo(t, done, AbsentFor(t, key, parse, listed));
    assert PendingFor(t', key) == PendingFor(t, key) - done;
    assert AbsentFor(t', key, parse, listed) == AbsentFor(t, key, parse, listed) - done;
    assert Reconciled(t', key, parse, listed).intents == Reconciled(t, key, parse, listed).intents;
    assert Reconciled(t', key, parse, listed).workspaces == Reconciled(t, key, parse, listed).workspaces;
  }

  /** Reconciling twice is reconciling once. */
  lemma ReconcilingIsIdempotent(t: Tables, key: string, parse: string -> Path, listed: seq<Path>)
    ensures Reconciled(Reconciled(t, key, parse, listed), key, parse, listed) == Reconciled(t, key, parse, listed)
  {
    assert PartlyReconciled(t, key, parse, listed, Reconciled(t, key, parse, listed));
    InterruptionIsInvisible(t, key, parse, listed, Reconciled(t, key, parse, listed));
  }

  /** What a reconciliation, finished or interrupted, means for one workspace. */
  lemma ReconciliationByWorkspace(t: Tables, key: string, parse: string -> Path, listed: seq<Path>, t': Tables,
                                  id: WorkspaceId)
    requires PartlyReconciled(t, key, parse, listed, t')
    ensures id !in t.intents || t.intents[id].key != key ==>
              && (id in t'.intents <==> id in t.intents) && (id in t.intents ==> t'.intents[id] == t.intents[id])
              && (id in t'.workspaces <==> id in t.workspaces)
              && (id in t.workspaces ==> t'.workspaces[id] == t.workspaces[id])
    ensures id in t.intents && t.intents[id].key == key ==>
              || (id in t'.intents && t'.intents[id] == t.intents[id] && (id in t'.workspaces <==> id in t.workspaces))
              || (id !in t'.intents
                  && (id in t'.workspaces <==> id in t.workspaces && parse(t.intents[id].targetPath) in listed))
  {
    var done :| done <= PendingFor(t, key) && t' == SettledTo(t, done, AbsentFor(t, key, parse, listed));
  }

  // ---- the registry

  class HostRegistry {
    var localHost: Option<HostId>
    var workspaces: map<WorkspaceId, Workspace>
    var intents: map<WorkspaceId, Intent>
    /** When each intent was journalled; the times of settled ones no longer matter. */
    var createdAt: map<WorkspaceId, int>

    function Created(): WorkspaceId -> int
      reads this
    {
      var times := createdAt;
      id => if id in times then times[id] else 0
    }

    function Contents(): Tables
      reads this
    {
      Tables(workspaces, intents)
    }

    constructor (localHost: Option<HostId>)
      ensures this.localHost == localHost && Contents() == Tables(map[], map[]) && Keyed(Contents())
    {
      this.localHost := localHost;
      workspaces, intents, createdAt := map[], map[], map[];
    }

    /** Builds the intent from the current records, if nothing is pending for the workspace. */
    method PlanWorktrunkRemoval(parse: string -> Path, workspace: WorkspaceId, survivor: WorkspaceId,
                                targetPath: string, key: string)
      returns (r: Result<Intent, Error>)
      ensures r.Ok? <==>
                && workspace != survivor && parse(key).absolute && workspace !in intents && localHost.Some?
                && workspace in workspaces && survivor in workspaces
                && workspaces[workspace].host == workspaces[survivor].host == localHost.value
                && workspaces[workspace].rootPath == targetPath
                && workspaces[workspace].repository.Some?
                && workspaces[workspace].repository == workspaces[survivor].repository
      ensures r.Ok? ==> && r.value.workspace == workspace && r.value.survivor == survivor && r.value.key == key
                        && r.value.host == localHost.value && Current(Contents(), r.value)
    {
      if workspace == survivor {
        return Err(SameWorkspace);
      }
      if !parse(key).absolute {
        return Err(KeyNotAbsolute);
      }
      if workspace in intents {
        return Err(AlreadyPending);
      }
      if workspace !in workspaces || survivor !in workspaces {
        return Err(NotRegistered);
      }
      if localHost.None? {
        return Err(NoLocalHost);
      }
      r := BuildIntent(localHost.value, workspace, workspaces[workspace], survivor, workspaces[survivor], targetPath,
                       key);
    }

    method JournalWorktrunkRemoval(intent: Intent, now: int, fileFault: bool) returns (r: Result<(), Error>)
      requires Keyed(Contents())
      modifies this`intents, this`createdAt
      ensures Keyed(Contents())
      ensures createdAt == if intents == old(intents) then old(createdAt) else old(createdAt)[intent.workspace := now]
      ensures old(intent.workspace !in intents && Current(Contents(), intent)) ==>
                intents == old(intents)[intent.workspace := intent] && r == if fileFault then Err(FileProtection)
                  else Ok(())
      ensures !old(intent.workspace !in intents && Current(Contents(), intent)) ==> r.Err? && intents == old(intents)
    {
      if intent.workspace in intents {
        return Err(AlreadyPending);
      }
      if intent.workspace !in workspaces || intent.survivor !in workspaces {
        return Err(NotRegistered);
      }
      var current := BuildIntent(intent.host, intent.workspace, workspaces[intent.workspace], intent.survivor,
                                 workspaces[intent.survivor], intent.targetPath, intent.key);
      if current.Err? {
        return Err(current.error);
      }
      if current.value != intent {
        return Err(TargetChanged);
      }
      intents := intents[intent.workspace := intent];
      createdAt := createdAt[intent.workspace := now];
      return if fileFault then Err(FileProtection) else Ok(());
    }

    /** Deletes the workspace, if it is still the recorded one or already gone, together with its intent. */
    method FinishWorktrunkRemoval(intent: Intent, fileFault: bool) returns (r: Result<bool, Error>)
      modifies this`workspaces, this`intents
      ensures var id := intent.workspace;
              if id in old(intents) && old(intents)[id] == intent
                && (id in old(workspaces) ==> TargetUnchanged(old(workspaces)[id], intent))
              then Contents() == SettledTo(old(Contents()), {id}, {id}) && r == if fileFault then Err(FileProtection)
                else Ok(id in old(workspaces))
              else Contents() == old(Contents()) && r.Err?
      ensures var id := intent.workspace;
              id in old(workspaces) && id !in workspaces ==>
                old(workspaces)[id] == Workspace(intent.host, intent.targetPath, Some(intent.repository))
    {
      var id := intent.workspace;
      if id !in intents {
        return Err(MarkerMissing);
      }
      if intents[id] != intent {
        return Err(MarkerChanged);
      }
      var removed := id in workspaces;
      if removed && !TargetUnchanged(workspaces[id], intent) {
        return Err(TargetChanged);
      }
      workspaces := workspaces - {id};
      intents := intents - {id};
      assert {id} * {id} == {id};
      return if fileFault then Err(FileProtection) else Ok(removed);
    }

    method CancelWorktrunkRemoval(intent: Intent, fileFault: bool) returns (r: Result<(), Error>)
      modifies this`intents
      ensures var id := intent.workspace;
              if id in old(intents) && old(intents)[id] == intent
              then Contents() == SettledTo(old(Contents()), {id}, {}) && r == if fileFault then Err(FileProtection)
                else Ok(())
              else Contents() == old(Contents()) && r.Err?
    {
      var id := intent.workspace;
      if id !in intents {
        return Err(MarkerMissing);
      }
      if intents[id] != intent {
        return Err(MarkerChanged);
      }
      intents := intents - {id};
      assert workspaces - ({id} * {}) == workspaces;
      return if fileFault then Err(FileProtection) else Ok(());
    }

    method SettleOne(parse: string -> Path, listed: seq<Path>, intent: Intent, fileFault: bool)
      returns (r: Result<(), Error>)
      modifies this`workspaces, this`intents
      ensures if CanSettle(old(Contents()), parse, listed, intent)
              then Contents() == Settle(old(Contents()), parse, listed, intent) && r.Ok? == !fileFault
              else Contents() == old(Contents()) && r.Err?
      ensures intent.workspace !in old(intents) || old(intents)[intent.workspace] != intent ==>
                Contents() == old(Contents()) && r.Err?
    {
      hide SettledTo;
      if Present(parse, listed, intent) {
        r := CancelWorktrunkRemoval(intent, fileFault);
      } else {
        var finished := FinishWorktrunkRemoval(intent, fileFault);
        r := if finished.Ok? then Ok(()) else Err(finished.error);
      }
    }

    /**
     Settles every pending removal of a repository by its worktree list, oldest first and one transaction each.
     Other helpers may change the tables before each of them; `k` counts those committed. The helper may die before
     settlement `diesBefore`, and the file protection after each one may fail.
     */
    method ReconcileRemovalIntents(parse: string -> Path, repository: Path, key: string, listed: seq<Path>,
                                   others: Others, fileFault: nat -> bool, diesBefore: Option<nat>)
      returns (r: Result<(), Error>, order: seq<WorkspaceId>, ghost k: nat)
      requires Keyed(Contents()) && KeepKeyed(others)
      modifies this`workspaces, this`intents
      ensures Keyed(Contents())
      ensures SettledSoFar(old(Contents()), key, parse, listed, Created(), others, order, k, Contents())
      ensures r.Ok? <==>
                order == []
                  || (Authoritative(listed, repository) && AllSettle(old(Contents()), key, parse, listed, others, order)
                                         && NoFaults(|order|, fileFault, diesBefore))
      ensures r.Ok? ==> k == |order|
      ensures r.Ok? && order != [] ==> repository in listed && forall path :: path in listed ==> path.absolute
      ensures order != [] && (repository !in listed || exists path :: path in listed && !path.absolute) ==>
                r == Err(NotAuthoritative) && Contents() == old(Contents())
      ensures SpareIntents(others, key) ==>
                PendingFor(Contents(), key) == PendingFor(old(Contents()), key) - Elements(order[..k])
      ensures Quiet(others) ==> PartlyReconciled(old(Contents()), key, parse, listed, Contents())
      ensures Quiet(others) && r.Ok? ==> Contents() == Reconciled(old(Contents()), key, parse, listed)
      ensures Quiet(others) && NoFaults(|order|, fileFault, diesBefore) ==>
                (r.Ok? <==> PendingFor(old(Contents()), key) == {}
                            || (Authoritative(listed, repository) && Cleanable(old(Contents()), key, parse, listed)))
    {
      hide PartlyReconciled, Authoritative, Present, Cleanable, SettledTo, Reconciled, AbsentFor, TargetUnchanged,
        Keyed, CanSettle, SpareIntents, Quiet, KeepKeyed, PendingFor, Older, OldestFirst;
      ghost var start := Contents();
      AuthorityMeans(listed, repository);
      order := InCreationOrder(PendingFor(Contents(), key));
      PendingAreStored(start, key);
      var removals := IntentsOf(intents, order);
      if order != [] && !Authoritative(listed, repository) {
        r, k := Err(NotAuthoritative), 0;
      } else {
        r, k := SettleEach(parse, listed, removals, others, fileFault, diesBefore);
      }
      assert order != [] ==> order[0] in Elements(order);
      AfterReconciling(start, key, parse, listed, Created(), others, order, k, Contents());
    }

    method InCreationOrder(ids: set<WorkspaceId>) returns (order: seq<WorkspaceId>)
      ensures Elements(order) == ids && OldestFirst(Created(), order)
    {
      var some := Enumerate(ids);
      var created := Created();
      var older := (a: WorkspaceId, b: WorkspaceId) => Older(created, a, b);
      order := Sort(some, older);
      SameMembers(order, some);
      SortSorts(some, older);
      DistinctStays(some, order);
      forall i, j | 0 <= i < j < |order| ensures order[i] != order[j] && Older(created, order[i], order[j]) {
        assert older(order[i], order[j]);
      }
    }

    /** One transaction for each intent, in the given order, until one fails or the helper dies. */
    method SettleEach(parse: string -> Path, listed: seq<Path>, removals: seq<Intent>, others: Others,
                      fileFault: nat -> bool, diesBefore: Option<nat>) returns (r: Result<(), Error>, ghost k: nat)
      requires Keyed(Contents()) && KeepKeyed(others)
      modifies this`workspaces, this`intents
      ensures Keyed(Contents())
      ensures k <= |removals|
      ensures || Contents() == Settling(old(Contents()), parse, listed, removals, others, k)
              || (k < |removals| && Contents() == Met(old(Contents()), parse, listed, removals, others, k))
      ensures r.Ok? ==> k == |removals|
      ensures r.Ok? <==>
                && (forall i :: 0 <= i < |removals| ==>
                     CanSettle(Met(old(Contents()), parse, listed, removals, others, i), parse, listed, removals[i]))
                && NoFaults(|removals|, fileFault, diesBefore)
    {
      hide CanSettle, Settle, Settling, Met, Keyed, KeepKeyed;
      ghost var start := Contents();
      SettlingStart(start, parse, listed, removals, others);
      k := 0;
      for i := 0 to |removals|
        invariant k == i && Keyed(Contents())
        invariant Contents() == Settling(start, parse, listed, removals, others, i)
        invariant forall j :: 0 <= j < i ==>
                    CanSettle(Met(start, parse, listed, removals, others, j), parse, listed, removals[j])
        invariant forall j :: 0 <= j < i ==> !fileFault(j)
        invariant diesBefore.Some? ==> diesBefore.value >= i
      {
        if diesBefore == Some(i) {
          return Err(Died), k;
        }
        SettlingNext(start, parse, listed, removals, others, i);
        Interleave(others, i);
        SettlingKeepsKeyed(Contents(), parse, listed, removals[i]);
        var settled := SettleOne(parse, listed, removals[i], fileFault(i));
        if settled.Err? {
          return Err(settled.error),
            if CanSettle(Met(start, parse, listed, removals, others, i), parse, listed, removals[i]) then i + 1 else i;
        }
        k := i + 1;
      }
      return Ok(()), k;
    }

    method Interleave(others: Others, n: nat)
      requires Keyed(Contents()) && KeepKeyed(others)
      modifies this`workspaces, this`intents
      ensures Contents() == others(n, old(Contents())) && Keyed(Contents())
    {
      var t := others(n, Contents());
      workspaces, intents := t.workspaces, t.intents;
    }

    /** The repository a listing runs in: the workspace's own, or that of the survivor its pending removal names. */
    method ListRepository(paths: Paths, workspace: WorkspaceId, expected: string)
      returns (r: Result<(Path, string), Error>)
      ensures r.Ok? ==> paths.key(r.value.0) == Ok(r.value.1)
      ensures r.Ok? && workspace !in workspaces ==>
                && workspace in intents && intents[workspace].key == r.value.1
                && intents[workspace].targetPath == expected
                && localHost == Some(intents[workspace].host)
                && var survivor := intents[workspace].survivor;
                   && survivor in workspaces && workspaces[survivor].rootPath == intents[workspace].survivingPath
                   && workspaces[survivor].repository == Some(intents[workspace].repository)
                   && paths.canonical(intents[workspace].survivingPath) == Ok(r.value.0)
      ensures r.Ok? && workspace in workspaces ==>
                workspaces[workspace].rootPath == expected && workspaces[workspace].repository.Some?
    {
      if localHost.None? {
        return Err(NoLocalHost);
      }
      if workspace in workspaces {
        var registered := workspaces[workspace];
        if registered.host != localHost.value {
          return Err(WrongHost);
        }
        if registered.rootPath != expected {
          return Err(WrongPath);
        }
        if registered.repository.None? {
          return Err(NoRepository);
        }
        var repository := paths.canonical(expected);
        if repository.Ok? {
          var key := paths.key(repository.value);
          return if key.Ok? then Ok((repository.value, key.value)) else Err(key.error);
        }
      }
      r := RecoveryRepository(paths, workspace, expected, localHost.value);
    }

    method RecoveryRepository(paths: Paths, workspace: WorkspaceId, expected: string, host: HostId)
      returns (r: Result<(Path, string), Error>)
      ensures r.Ok? ==>
                && workspace in intents && intents[workspace].key == r.value.1
                && intents[workspace].targetPath == expected
                && intents[workspace].host == host
                && paths.key(r.value.0) == Ok(r.value.1)
                && var survivor := intents[workspace].survivor;
                   && survivor in workspaces && workspaces[survivor].host == host
                   && workspaces[survivor].rootPath == intents[workspace].survivingPath
                   && workspaces[survivor].repository == Some(intents[workspace].repository)
                   && paths.canonical(intents[workspace].survivingPath) == Ok(r.value.0)
    {
      if workspace !in intents {
        return Err(NothingToRecover);
      }
      var intent := intents[workspace];
      if intent.host != host || intent.targetPath != expected {
        return Err(WrongPath);
      }
      if intent.survivor !in workspaces {
        return Err(NotRegistered);
      }
      var survivor := workspaces[intent.survivor];
      if survivor.host != host || survivor.rootPath != intent.survivingPath
        || survivor.repository != Some(intent.repository) {
        return Err(SurvivorChanged);
      }
      var repository := paths.canonical(survivor.rootPath);
      if repository.Err? {
        return Err(repository.error);
      }
      var key := paths.key(repository.value);
      if key.Err? {
        return Err(key.error);
      }
      if key.value != intent.key {
        return Err(DifferentRepository);
      }
      return Ok((repository.value, key.value));
    }

    /**
     Listing worktrees settles the pending removals of the listed repository. Between choosing the repository and
     owning its lock, other helpers may leave any `meanwhile` tables; under the lock they spare its intents. After
     success no removal is pending there, and a workspace that was gone from the registry has been listed through
     its own pending removal, which is not pending there any more.
     */
    method List(paths: Paths, workspace: WorkspaceId, expected: string, meanwhile: Tables, others: Others,
                listing: Result<seq<Path>, Error>, fileFault: nat -> bool, diesBefore: Option<nat>)
      returns (r: Result<seq<Path>, Error>, ghost key: string)
      requires Keyed(Contents()) && Keyed(meanwhile) && KeepKeyed(others)
      modifies this`workspaces, this`intents
      ensures Keyed(Contents())
      ensures r.Ok? ==> listing == Ok(r.value)
      ensures r.Ok? && SpareIntents(others, key) ==> PendingFor(Contents(), key) == {}
      ensures r.Ok? && Quiet(others) ==> Contents() == Reconciled(meanwhile, key, paths.parse, r.value)
      ensures r.Ok? && workspace !in old(workspaces) ==>
                && workspace in old(intents) && old(intents)[workspace].key == key
                && (SpareIntents(others, key) && workspace in intents ==> intents[workspace] != old(intents)[workspace])
      ensures || Contents() == old(Contents()) || Contents() == meanwhile
              || (listing.Ok? && exists order, k: nat ::
                   SettledSoFar(meanwhile, key, paths.parse, listing.value, Created(), others, order, k, Contents()))
    {
      hide Settling, Met, Reconciled, Quiet, Keyed, KeepKeyed, SpareIntents;
      key := "";
      var found := ListRepository(paths, workspace, expected);
      if found.Err? {
        return Err(found.error), key;
      }
      key := found.value.1;
      workspaces, intents := meanwhile.workspaces, meanwhile.intents;
      if listing.Err? {
        return Err(listing.error), key;
      }
      var settled, order, k :=
        ReconcileRemovalIntents(paths.parse, found.value.0, found.value.1, listing.value, others, fileFault,
                                diesBefore);
      if settled.Err? {
        return Err(settled.error), key;
      }
      assert workspace in intents && intents[workspace].key == key ==> workspace in PendingFor(Contents(), key);
      return Ok(listing.value), key;
    }

    method ByRootPath() returns (order: seq<WorkspaceId>)
      ensures Elements(order) == workspaces.Keys
      ensures forall i, j :: 0 <= i <= j < |order| ==> NotAfter(Contents(), order[i], order[j])
    {
      hide NotAfter;
      var t := Contents();
      var some := Enumerate(workspaces.Keys);
      var byPath := (a: WorkspaceId, b: WorkspaceId) => NotAfter(t, a, b);
      order := Sort(some, byPath);
      PathsOrder(t, byPath);
      SortSorts(some, byPath);
      SameMembers(order, some);
      forall i, j | 0 <= i <= j < |order| ensures NotAfter(t, order[i], order[j]) {
        assert byPath(order[i], order[j]);
      }
    }

    /** The first workspace by root path that can stand in for the removed one. */
    method FindSurvivor(paths: Paths, host: HostId, workspace: WorkspaceId, key: string)
      returns (r: Option<WorkspaceId>)
      ensures r.Some? ==> FirstEligible(Contents(), paths, host, workspace, key, r.value)
      ensures r.None? ==> forall id :: !Eligible(Contents(), paths, host, workspace, key, id)
    {
      hide NotAfter, KeyAt;
      var t := Contents();
      var candidates := ByRootPath();
      assert forall id :: Eligible(t, paths, host, workspace, key, id) ==> id in Elements(candidates);
      hide Eligible;
      for i := 0 to |candidates|
        invariant forall j :: 0 <= j < i ==> !Eligible(t, paths, host, workspace, key, candidates[j])
      {
        if Eligible(t, paths, host, workspace, key, candidates[i]) {
          return Some(candidates[i]);
        }
      }
      return None;
    }

    method RemovalIntent(paths: Paths, workspace: WorkspaceId, targetPath: string) returns (r: Result<Intent, Error>)
      ensures r.Ok? ==> Planned(Contents(), localHost, paths, workspace, targetPath, r.value)
      ensures r.Err? ==> forall intent :: !Planned(Contents(), localHost, paths, workspace, targetPath, intent)
    {
      if workspace in intents {
        return Err(AlreadyPending);
      }
      if localHost.None? {
        return Err(NoLocalHost);
      }
      if workspace !in workspaces {
        return Err(NotRegistered);
      }
      var target := workspaces[workspace];
      if target.host != localHost.value {
        return Err(WrongHost);
      }
      if target.rootPath != targetPath {
        return Err(WrongPath);
      }
      if target.repository.None? {
        return Err(NoRepository);
      }
      var key := KeyAt(paths, targetPath);
      if key.Err? {
        return Err(key.error);
      }
      var survivor := FindSurvivor(paths, localHost.value, workspace, key.value);
      if survivor.None? {
        return Err(NoSurvivor);
      }
      r := PlanWorktrunkRemoval(paths.parse, workspace, survivor.value, targetPath, key.value);
    }

    method Interfere(others: (Stage, Tables) -> Tables, stage: Stage)
      modifies this`workspaces, this`intents
      ensures Contents() == others(stage, old(Contents()))
    {
      var t := others(stage, Contents());
      workspaces, intents := t.workspaces, t.intents;
    }

    /**
     One removal, from the plan to the registry, among other helpers. It is journalled exactly when the plan is the
     same at every check, the approval is for it, and no session is open; the workspace is forgotten only after the
     command succeeded, and otherwise the journalled intent stays for a later listing.
     */
    method Remove(outside: Outside, workspace: WorkspaceId, targetPath: string, supplied: Option<string>)
      returns (r: Result<Outcome, Error>, ghost journalled: Option<Intent>)
      requires Keyed(Contents()) && forall stage, t :: Keyed(t) ==> Keyed(outside.others(stage, t))
      modifies this`workspaces, this`intents, this`createdAt
      ensures Keyed(Contents())
      ensures supplied.None? ==>
                Contents() == old(Contents()) && (r.Ok? ==> r.value.Preview? && outside.token == Ok(r.value.token))
      ensures journalled.Some? ==>
                Prepared(old(Contents()), localHost, outside, workspace, targetPath, supplied, journalled.value)
      ensures journalled.None? ==>
                forall intent :: !Prepared(old(Contents()), localHost, outside, workspace, targetPath, supplied, intent)
      ensures journalled.None? ==>
                r != Ok(Removed) && exists stage :: Contents() == TablesAt(old(Contents()), outside, stage)
      ensures journalled.Some? ==>
                Ended(outside, TablesAt(old(Contents()), outside, Journalling), journalled.value, r, Contents())
    {
      hide Planned, Current, Keyed, Ended, SameRepository;
      ghost var start := Contents();
      assert TablesAt(start, outside, First) == start;
      var planned := RemovalIntent(outside.paths(First), workspace, targetPath);
      if planned.Err? {
        return Err(planned.error), None;
      }
      var intent := planned.value;
      PlanIsDetermined(start, localHost, outside.paths(First), workspace, targetPath, intent);
      if !SameRepository(outside.paths(First), intent) {
        return Err(DifferentRepository), None;
      }
      if supplied.None? {
        var shown := Authorize(outside, None);
        return
          if shown.Err? then Err(shown.error)
          else if shown.value.Required? then Ok(Preview(shown.value.token))
          else Err(Refused), None;
      }
      if outside.lease.Err? {
        return Err(outside.lease.error), None;
      }
      Interfere(outside.others, UnderLease);
      assert TablesAt(start, outside, UnderLease) == Contents();
      var again := RemovalIntent(outside.paths(UnderLease), workspace, targetPath);
      if again.Err? {
        return Err(again.error), None;
      }
      PlanIsDetermined(Contents(), localHost, outside.paths(UnderLease), workspace, targetPath, again.value);
      if again.value != intent {
        return Err(PlanChanged), None;
      }
      var open := AnyOpen(outside.sessions);
      if open {
        return Err(SessionsOpen), None;
      }
      if !SameRepository(outside.paths(UnderLease), intent) {
        return Err(DifferentRepository), None;
      }
      var decision := Authorize(outside, supplied);
      if decision.Err? {
        return Err(decision.error), None;
      }
      Interfere(outside.others, UnderLock);
      assert TablesAt(start, outside, UnderLock) == Contents();
      assert TablesAt(start, outside, Journalling) == outside.others(Journalling, Contents());
      r, journalled := Dispatch(outside, intent);
    }

    /** The steps under the repository's lock, from the last plan on. */
    method Dispatch(outside: Outside, intent: Intent)
      returns (r: Result<Outcome, Error>, ghost journalled: Option<Intent>)
      requires Keyed(Contents()) && forall stage, t :: Keyed(t) ==> Keyed(outside.others(stage, t))
      requires outside.paths(First).parse(intent.key).absolute && intent.survivor != intent.workspace
      requires localHost == Some(intent.host)
      modifies this`workspaces, this`intents, this`createdAt
      ensures Keyed(Contents())
      ensures journalled ==
              if && Dispatchable(old(Contents()), intent) && SameRepository(outside.paths(UnderLock), intent)
                 && Dispatchable(outside.others(Journalling, old(Contents())), intent)
              then Some(intent) else None
      ensures journalled.None? ==>
                r.Err? && (Contents() == old(Contents()) || Contents() == outside.others(Journalling, old(Contents())))
      ensures journalled.Some? ==> Ended(outside, outside.others(Journalling, old(Contents())), intent, r, Contents())
    {
      journalled := None;
      var current := PlanWorktrunkRemoval(outside.paths(First).parse, intent.workspace, intent.survivor,
                                          intent.targetPath, intent.key);
      if current.Err? {
        return Err(current.error), None;
      }
      if current.value != intent {
        return Err(PlanChanged), None;
      }
      if !SameRepository(outside.paths(UnderLock), intent) {
        return Err(DifferentRepository), None;
      }
      Interfere(outside.others, Journalling);
      ghost var before := Contents();
      var recorded := JournalWorktrunkRemoval(intent, outside.now, outside.journalFault);
      if recorded.Err? {
        return Err(recorded.error), if intents != before.intents then Some(intent) else None;
      }
      journalled := Some(intent);
      match outside.command {
        case Lost =>
          r := Err(Died);
        case Failed =>
          r := Err(CommandFailed);
        case Succeeded =>
          Interfere(outside.others, Finishing);
          var finished := FinishWorktrunkRemoval(intent, outside.finishFault);
          r := if finished.Ok? then Ok(Removed) else Err(finished.error);
      }
    }
  }

  // ---- properties of one removal

  /** The repository a path belongs to. */
  function KeyAt(paths: Paths, path: string): Result<string, Error> {
    var repository := paths.canonical(path);
    if repository.Ok? then paths.key(repository.value) else Err(repository.error)
  }

  predicate SameRepository(paths: Paths, intent: Intent) {
    KeyAt(paths, intent.survivingPath) == Ok(intent.key) && KeyAt(paths, intent.targetPath) == Ok(intent.key)
  }

  predicate Eligible(t: Tables, paths: Paths, host: HostId, workspace: WorkspaceId, key: string, id: WorkspaceId) {
    && workspace in t.workspaces && id in t.workspaces && id != workspace
    && t.workspaces[id].host == host && t.workspaces[id].repository.Some?
    && t.workspaces[id].repository == t.workspaces[workspace].repository
    && KeyAt(paths, t.workspaces[id].rootPath) == Ok(key)
  }

  function RootPath(t: Tables, id: WorkspaceId): string {
    if id in t.workspaces then t.workspaces[id].rootPath else ""
  }

  /** By root path, and by workspace at the same path. */
  predicate NotAfter(t: Tables, a: WorkspaceId, b: WorkspaceId) {
    StringLe(RootPath(t, a), RootPath(t, b)) && (RootPath(t, a) == RootPath(t, b) ==> a <= b)
  }

  ghost predicate FirstEligible(t: Tables, paths: Paths, host: HostId, workspace: WorkspaceId, key: string,
                                id: WorkspaceId) {
    Eligible(t, paths, host, workspace, key, id)
    && forall other :: Eligible(t, paths, host, workspace, key, other) ==> NotAfter(t, id, other)
  }

  /** The intent a helper forms from these tables: the target's records, its repository, and the first survivor. */
  ghost predicate Planned(t: Tables, localHost: Option<HostId>, paths: Paths, workspace: WorkspaceId,
                          targetPath: string, intent: Intent) {
    && intent.workspace == workspace && intent.targetPath == targetPath && localHost == Some(intent.host)
    && Dispatchable(t, intent)
    && KeyAt(paths, targetPath) == Ok(intent.key) && paths.parse(intent.key).absolute
    && FirstEligible(t, paths, intent.host, workspace, intent.key, intent.survivor)
  }

  /** Nothing is pending for the workspace, and the intent is true of the tables. */
  predicate Dispatchable(t: Tables, intent: Intent) {
    intent.workspace !in t.intents && Current(t, intent)
  }

  predicate Open(s: Session) {
    s.zellij && !s.exited
  }

  /** The registry at each moment, before the helper itself has written anything. */
  ghost function TablesAt(t: Tables, outside: Outside, stage: Stage): Tables {
    match stage
    case First => t
    case UnderLease => outside.others(UnderLease, t)
    case UnderLock => outside.others(UnderLock, outside.others(UnderLease, t))
    case _ => outside.others(Journalling, outside.others(UnderLock, outside.others(UnderLease, t)))
  }

  /** Every check on the way to the journal agrees on the intent. */
  ghost predicate Prepared(t: Tables, localHost: Option<HostId>, outside: Outside, workspace: WorkspaceId,
                           targetPath: string, supplied: Option<string>, intent: Intent) {
    && Planned(t, localHost, outside.paths(First), workspace, targetPath, intent)
    && SameRepository(outside.paths(First), intent)
    && supplied.Some? && outside.lease.Ok?
    && Planned(TablesAt(t, outside, UnderLease), localHost, outside.paths(UnderLease), workspace, targetPath, intent)
    && SameRepository(outside.paths(UnderLease), intent)
    && (forall i :: 0 <= i < |outside.sessions| ==> !Open(outside.sessions[i]))
    && outside.token == Ok(supplied.value) && outside.approval.Ok?
    && Dispatchable(TablesAt(t, outside, UnderLock), intent) && SameRepository(outside.paths(UnderLock), intent)
    && Dispatchable(TablesAt(t, outside, Journalling), intent)
  }

  /** How a journalled removal ends. */
  ghost predicate Ended(outside: Outside, t: Tables, intent: Intent, r: Result<Outcome, Error>, t': Tables) {
    var id := intent.workspace;
    var kept := Tables(t.workspaces, t.intents[id := intent]);
    var last := outside.others(Finishing, kept);
    if outside.journalFault || !outside.command.Succeeded? then r.Err? && t' == kept
    else if id in last.intents && last.intents[id] == intent
      && (id in last.workspaces ==> TargetUnchanged(last.workspaces[id], intent))
    then t' == SettledTo(last, {id}, {id}) && (if outside.finishFault then r.Err? else r == Ok(Removed))
    else r.Err? && t' == last
  }

  predicate SameAt<T(==)>(a: map<WorkspaceId, T>, b: map<WorkspaceId, T>, id: WorkspaceId) {
    (id in a <==> id in b) && (id in a && id in b ==> a[id] == b[id])
  }

  ghost predicate LeavesAlone(others: (Stage, Tables) -> Tables, id: WorkspaceId) {
    forall t: Tables ::
      SameAt(others(Finishing, t).workspaces, t.workspaces, id) && SameAt(others(Finishing, t).intents, t.intents, id)
  }

  /** When the other helpers leave the workspace alone from the journal on, it is forgotten exactly when the command has
      succeeded, and until then its intent is there for a listing to settle. */
  lemma ForgottenOnlyAfterSuccess(outside: Outside, t: Tables, intent: Intent, r: Result<Outcome, Error>, t': Tables)
    requires Dispatchable(t, intent) && Ended(outside, t, intent, r, t')
    requires LeavesAlone(outside.others, intent.workspace)
    ensures intent.workspace !in t'.workspaces <==> outside.command.Succeeded? && !outside.journalFault
    ensures intent.workspace in t'.workspaces <==>
              intent.workspace in t'.intents && t'.intents[intent.workspace] == intent
    ensures r == Ok(Removed) <==> intent.workspace !in t'.workspaces && !outside.finishFault
  {
  }

  lemma PlanIsDetermined(t: Tables, localHost: Option<HostId>, paths: Paths, workspace: WorkspaceId,
                         targetPath: string, intent: Intent)
    requires Planned(t, localHost, paths, workspace, targetPath, intent)
    ensures intent.survivor != workspace && localHost == Some(intent.host) && intent.workspace == workspace
    ensures intent.targetPath == targetPath
    ensures paths.parse(intent.key).absolute
    ensures forall other :: Planned(t, localHost, paths, workspace, targetPath, other) ==> other == intent
  {
    forall other | Planned(t, localHost, paths, workspace, targetPath, other) ensures other == intent {
      assert NotAfter(t, intent.survivor, other.survivor) && NotAfter(t, other.survivor, intent.survivor);
      StringLeAntisymmetric(RootPath(t, intent.survivor), RootPath(t, other.survivor));
    }
  }

  /** What a planned intent says of the registry: the target as it is, and the first other that can stand in for it. */
  lemma PlanNamesFirstSurvivor(t: Tables, localHost: Option<HostId>, paths: Paths, workspace: WorkspaceId,
                               targetPath: string, intent: Intent, id: WorkspaceId)
    requires Planned(t, localHost, paths, workspace, targetPath, intent)
    ensures workspace in t.workspaces && intent.survivor in t.workspaces && intent.survivor != workspace
    ensures t.workspaces[workspace] == Workspace(intent.host, targetPath, Some(intent.repository))
    ensures t.workspaces[intent.survivor] == Workspace(intent.host, intent.survivingPath, Some(intent.repository))
    ensures paths.canonical(targetPath).Ok? && paths.key(paths.canonical(targetPath).value) == Ok(intent.key)
    ensures paths.canonical(intent.survivingPath).Ok?
            && paths.key(paths.canonical(intent.survivingPath).value) == Ok(intent.key)
    ensures id in t.workspaces && id != workspace && paths.canonical(t.workspaces[id].rootPath).Ok?
            && t.workspaces[id] == Workspace(intent.host, t.workspaces[id].rootPath, Some(intent.repository))
            && paths.key(paths.canonical(t.workspaces[id].rootPath).value) == Ok(intent.key) ==>
              StringLe(intent.survivingPath, t.workspaces[id].rootPath)
  {
    if id in t.workspaces && Eligible(t, paths, intent.host, workspace, intent.key, id) {
      assert NotAfter(t, intent.survivor, id);
    }
  }

  lemma PathsOrder(t: Tables, le: (WorkspaceId, WorkspaceId) -> bool)
    requires forall a, b :: le(a, b) == NotAfter(t, a, b)
    ensures TotalPreorder(le)
  {
    forall a, b ensures le(a, b) || le(b, a) {
      StringLeTotal(RootPath(t, a), RootPath(t, b));
    }
    forall a, b, c | le(a, b) && le(b, c) ensures le(a, c) {
      StringLeTransitive(RootPath(t, a), RootPath(t, b), RootPath(t, c));
      if RootPath(t, a) == RootPath(t, c) {
        StringLeAntisymmetric(RootPath(t, a), RootPath(t, b));
      }
    }
  }

  method AnyOpen(sessions: seq<Session>) returns (open: bool)
    ensures open <==> exists i :: 0 <= i < |sessions| && Open(sessions[i])
  {
    for i := 0 to |sessions|
      invariant forall j :: 0 <= j < i ==> !Open(sessions[j])
    {
      if Open(sessions[i]) {
        return true;
      }
    }
    return false;
  }

  /** Without a token the one that would approve is shown; with one it must be that token. */
  method Authorize(outside: Outside, supplied: Option<string>) returns (r: Result<Decision, Error>)
    ensures supplied.None? ==>
              r == if outside.token.Ok? then Ok(Required(outside.token.value)) else Err(outside.token.error)
    ensures supplied.Some? ==>
              (r == Ok(Authorized) <==> outside.token == Ok(supplied.value) && outside.approval.Ok?)
                && (r.Ok? ==> r.value.Authorized?)
  {
    if outside.token.Err? {
      return Err(outside.token.error);
    }
    if supplied.None? {
      return Ok(Required(outside.token.value));
    }
    if supplied.value != outside.token.value {
      return Err(Refused);
    }
    return if outside.approval.Ok? then Ok(Authorized) else Err(outside.approval.error);
  }

  function BuildIntent(host: HostId, id: WorkspaceId, target: Workspace, survivorId: WorkspaceId, survivor: Workspace,
                       targetPath: string, key: string): Result<Intent, Error> {
    if target.host != host || survivor.host != host then Err(WrongHost)
    else if target.rootPath != targetPath then Err(WrongPath)
    else if target.repository.None? || survivor.repository.None? then Err(NoRepository)
    else if target.repository != survivor.repository then Err(DifferentRepository)
    else Ok(Intent(id, survivorId, host, target.repository.value, key, target.rootPath, survivor.rootPath))
  }

  /** The intent says of both workspaces what the registry says now. */
  predicate Current(t: Tables, intent: Intent) {
    && intent.workspace in t.workspaces && intent.survivor in t.workspaces
    && TargetUnchanged(t.workspaces[intent.workspace], intent)
    && t.workspaces[intent.survivor] == Workspace(intent.host, intent.survivingPath, Some(intent.repository))
  }

  function IntentsOf(intents: map<WorkspaceId, Intent>, order: seq<WorkspaceId>): (s: seq<Intent>)
    requires Elements(order) <= intents.Keys
    ensures |s| == |order| && forall i :: 0 <= i < |order| ==> order[i] in intents && s[i] == intents[order[i]]
  {
    if order == [] then []
    else
      assert order[0] in Elements(order) && Elements(order[1..]) <= Elements(order);
      [intents[order[0]]] + IntentsOf(intents, order[1..])
  }


  lemma OldestIsFirst(created: WorkspaceId -> int, order: seq<WorkspaceId>, i: nat, j: nat)
    requires OldestFirst(created, order) && i < j < |order|
    ensures created(order[i]) < created(order[j]) || (created(order[i]) == created(order[j]) && order[i] < order[j])
  {
  }

  lemma OrderIsDistinct(created: WorkspaceId -> int, order: seq<WorkspaceId>)
    requires OldestFirst(created, order)
    ensures forall i, j :: 0 <= i < j < |order| ==> order[i] != order[j]
  {
  }

  lemma NothingYet(order: seq<WorkspaceId>)
    ensures Elements(order[..0]) == {}
  {
  }

  lemma SettlingNothing(t: Tables, key: string, parse: string -> Path, listed: seq<Path>)
    ensures SettledTo(t, {}, AbsentFor(t, key, parse, listed)) == t
  {
    assert t.workspaces - ({} * AbsentFor(t, key, parse, listed)) == t.workspaces && t.intents - {} == t.intents;
  }

  lemma SettlingKeepsKeyed(t: Tables, parse: string -> Path, listed: seq<Path>, intent: Intent)
    requires Keyed(t)
    ensures Keyed(Settle(t, parse, listed, intent))
  {
  }

  lemma PendingAreStored(t: Tables, key: string)
    ensures PendingFor(t, key) <= t.intents.Keys
  {
  }

  /** In `n` settlements no file protection fails, and the helper lives to the end. */
  predicate NoFaults(n: nat, fileFault: nat -> bool, diesBefore: Option<nat>) {
    (forall i :: 0 <= i < n ==> !fileFault(i)) && (diesBefore.Some? ==> diesBefore.value >= n)
  }

  /** The consequences of a reconciliation among others that spare the intents, or keep quiet altogether. */
  lemma AfterReconciling(t: Tables, key: string, parse: string -> Path, listed: seq<Path>, created: WorkspaceId -> int,
                         others: Others, order: seq<WorkspaceId>, k: nat, t': Tables)
    requires Keyed(t) && SettledSoFar(t, key, parse, listed, created, others, order, k, t')
    ensures SpareIntents(others, key) ==> PendingFor(t', key) == PendingFor(t, key) - Elements(order[..k])
    ensures Quiet(others) ==> PartlyReconciled(t, key, parse, listed, t')
    ensures Quiet(others) && k == |order| ==> t' == Reconciled(t, key, parse, listed)
    ensures Quiet(others) ==> (AllSettle(t, key, parse, listed, others, order) <==> Cleanable(t, key, parse, listed))
  {
    hide SettledTo, PendingFor, AbsentFor, Keyed, Elements, Older, PartlyReconciled, Reconciled, AllSettle, Cleanable,
      Quiet, SpareIntents;
    OrderIsDistinct(created, order);
    if SpareIntents(others, key) {
      SettledStaysSettled(t, key, parse, listed, others, order, k);
    }
    if Quiet(others) {
      QuietReconciliation(t, key, parse, listed, created, others, order, k, t');
    }
  }

  lemma PartlySettled(t: Tables, key: string, parse: string -> Path, listed: seq<Path>, done: set<WorkspaceId>)
    requires done <= PendingFor(t, key)
    ensures PartlyReconciled(t, key, parse, listed, SettledTo(t, done, AbsentFor(t, key, parse, listed)))
    ensures Keyed(t) ==> Keyed(SettledTo(t, done, AbsentFor(t, key, parse, listed)))
    ensures done == PendingFor(t, key) ==>
              Reconciled(t, key, parse, listed) == SettledTo(t, done, AbsentFor(t, key, parse, listed))
  {
    if done == PendingFor(t, key) {
      assert done * AbsentFor(t, key, parse, listed) == AbsentFor(t, key, parse, listed);
    }
  }

  lemma SettledOneMore(t: Tables, done: set<WorkspaceId>, absent: set<WorkspaceId>, id: WorkspaceId)
    ensures SettledTo(SettledTo(t, done, absent), {id}, if id in absent then {id} else {})
            == SettledTo(t, done + {id}, absent)
  {
    var one := SettledTo(SettledTo(t, done, absent), {id}, if id in absent then {id} else {});
    var all := SettledTo(t, done + {id}, absent);
    assert one.intents == all.intents && one.workspaces == all.workspaces;
  }

  lemma StillPending(t: Tables, key: string, parse: string -> Path, listed: seq<Path>, done: set<WorkspaceId>,
                     id: WorkspaceId)
    requires Keyed(t) && done <= PendingFor(t, key) && id in PendingFor(t, key) && id !in done
    ensures var t', absent := SettledTo(t, done, AbsentFor(t, key, parse, listed)), AbsentFor(t, key, parse, listed);
            && id in t'.intents && t'.intents[id] == t.intents[id] && t.intents[id].workspace == id
            && (id in t'.workspaces <==> id in t.workspaces)
            && (id in t.workspaces ==> t'.workspaces[id] == t.workspaces[id])
            && (id in absent <==> !Present(parse, listed, t.intents[id]))
            && Keyed(t')
  {
  }
}

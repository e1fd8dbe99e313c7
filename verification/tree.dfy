/** The tree of hosts, repositories and workspaces that a client shows. */
module Tree {
  import opened Prelude
  import opened StableSort
  import opened StatusRollup

  type HostId = nat
  type RepositoryId = nat
  type WorkspaceId = nat

  datatype Connection =
    | Local
    | Disconnected
    | Authenticating
    | Connected
    | Reconnecting
    | NeedsAuthentication
    | HostKeyBlocked
    | Failed

  datatype Host = Host(id: HostId, displayName: string)

  /** `repository` is the one the grouping policy resolves to. */
  datatype Workspace = Workspace(id: WorkspaceId, host: HostId, rootPath: string, displayName: Option<string>,
                                 repository: Option<RepositoryId>, setupFailed: bool)

  datatype Snapshot = Snapshot(hosts: seq<Host>, workspaces: seq<Workspace>)

  /** How paths and repositories are named when they have no name of their own. */
  datatype Names = Names(fileName: string -> Option<string>, repository: (HostId, RepositoryId) -> string)

  datatype GroupKey = Repository(repository: RepositoryId) | Single(workspace: WorkspaceId)

  datatype WorkspaceNode = WorkspaceNode(id: WorkspaceId, text: string, rootPath: string, status: DisplayStatus,
                                         setupFailed: bool)

  datatype RepositoryNode = RepositoryNode(id: Option<RepositoryId>, text: string, workspaces: seq<WorkspaceNode>,
                                           status: DisplayStatus)

  datatype HostNode = HostNode(id: HostId, text: string, connection: Connection, repositories: seq<RepositoryNode>,
                               status: DisplayStatus)

  type Statuses = map<WorkspaceId, DisplayStatus>

  function KeyOf(w: Workspace): GroupKey {
    if w.repository.Some? then Repository(w.repository.value) else Single(w.id)
  }

  /** Repositories before single workspaces, each by its identifier. */
  predicate KeyLe(a: GroupKey, b: GroupKey) {
    match (a, b)
    case (Repository(x), Repository(y)) => x <= y
    case (Repository(_), Single(_)) => true
    case (Single(_), Repository(_)) => false
    case (Single(x), Single(y)) => x <= y
  }

  function NodeOf(w: Workspace, names: Names, statuses: Statuses): WorkspaceNode {
    var text := if w.displayName.Some? then w.displayName.value
                else if names.fileName(w.rootPath).Some? then names.fileName(w.rootPath).value else w.rootPath;
    WorkspaceNode(w.id, text, w.rootPath, if w.id in statuses then statuses[w.id] else Idle, w.setupFailed)
  }

  /** The nodes of one host's workspaces, in the order of the snapshot. */
  function NodesOf(ws: seq<Workspace>, host: HostId, names: Names, statuses: Statuses): seq<WorkspaceNode> {
    if ws == [] then []
    else
      var w := ws[|ws| - 1];
      NodesOf(ws[..|ws| - 1], host, names, statuses) + (if w.host == host then [NodeOf(w, names, statuses)] else [])
  }

  /** Those of them in one group. */
  function GroupOf(ws: seq<Workspace>, host: HostId, key: GroupKey, names: Names,
                   statuses: Statuses): seq<WorkspaceNode> {
    if ws == [] then []
    else
      var w := ws[|ws| - 1];
      GroupOf(ws[..|ws| - 1], host, key, names, statuses) +
        (if w.host == host && KeyOf(w) == key then [NodeOf(w, names, statuses)] else [])
  }

  function KeysOf(ws: seq<Workspace>, host: HostId): set<GroupKey> {
    set w | w in ws && w.host == host :: KeyOf(w)
  }

  function AllNodes(repositories: seq<RepositoryNode>): seq<WorkspaceNode> {
    if repositories == [] then []
      else AllNodes(repositories[..|repositories| - 1]) + repositories[|repositories| - 1].workspaces
  }

  const WORKSPACE_STATUS := (n: WorkspaceNode) => n.status
  const REPOSITORY_STATUS := (n: RepositoryNode) => n.status

  const BY_TEXT := (a: WorkspaceNode, b: WorkspaceNode) => StringLe(a.text, b.text)
  const REPOSITORIES_BY_TEXT := (a: RepositoryNode, b: RepositoryNode) => StringLe(a.text, b.text)
  const HOSTS_BY_TEXT := (a: HostNode, b: HostNode) => StringLe(a.text, b.text)
  const BY_KEY := (a: GroupKey, b: GroupKey) => KeyLe(a, b)

  // ---- what a tree must be

  /** The node of one group: its workspaces, sorted stably by their text, and their most urgent status. */
  function GroupNode(ws: seq<Workspace>, host: HostId, key: GroupKey, names: Names,
                     statuses: Statuses): RepositoryNode {
    var nodes := Sort(GroupOf(ws, host, key, names, statuses), BY_TEXT);
    match key
    case Repository(id) => RepositoryNode(Some(id), names.repository(host, id), nodes,
                                          Rollup(Map(nodes, WORKSPACE_STATUS)))
    case Single(_) => RepositoryNode(Option.None, "folder", nodes, Rollup(Map(nodes, WORKSPACE_STATUS)))
  }

  function GroupNodes(ws: seq<Workspace>, host: HostId, keys: seq<GroupKey>, names: Names,
                      statuses: Statuses): (r: seq<RepositoryNode>)
    ensures |r| == |keys| && forall i :: 0 <= i < |keys| ==> r[i] == GroupNode(ws, host, keys[i], names, statuses)
  {
    seq(|keys|, i requires 0 <= i < |keys| => GroupNode(ws, host, keys[i], names, statuses))
  }

  /** The keys of a host's groups, each once, in order. */
  function KeyList(ws: seq<Workspace>, host: HostId): seq<GroupKey> {
    if ws == [] then []
    else
      var before, w := KeyList(ws[..|ws| - 1], host), ws[|ws| - 1];
      if w.host != host || KeyOf(w) in before then before else Insert(before, KeyOf(w), BY_KEY)
  }

  /** The groups of a host, sorted stably by their text. */
  function Repositories(ws: seq<Workspace>, host: HostId, names: Names, statuses: Statuses): seq<RepositoryNode> {
    Sort(GroupNodes(ws, host, KeyList(ws, host), names, statuses), REPOSITORIES_BY_TEXT)
  }

  /** A host with its groups and the most urgent of their statuses. */
  function HostNodeOf(s: Snapshot, h: Host, connections: map<HostId, Connection>, names: Names,
                      statuses: Statuses): HostNode {
    var repositories := Repositories(s.workspaces, h.id, names, statuses);
    HostNode(h.id, h.displayName, if h.id in connections then connections[h.id] else Disconnected,
             repositories, Rollup(Map(repositories, REPOSITORY_STATUS)))
  }

  function HostNodesOf(s: Snapshot, hosts: seq<Host>, connections: map<HostId, Connection>, names: Names,
                       statuses: Statuses): (r: seq<HostNode>)
    ensures |r| == |hosts| && forall i :: 0 <= i < |hosts| ==>
              r[i] == HostNodeOf(s, hosts[i], connections, names, statuses)
  {
    seq(|hosts|, i requires 0 <= i < |hosts| => HostNodeOf(s, hosts[i], connections, names, statuses))
  }

  function TreeOf(s: Snapshot, connections: map<HostId, Connection>, names: Names, statuses: Statuses): seq<HostNode> {
    Sort(HostNodesOf(s, s.hosts, connections, names, statuses), HOSTS_BY_TEXT)
  }

  /** Every key once, in order. */
  ghost predicate InKeyOrder(order: seq<GroupKey>, keys: set<GroupKey>) {
    && Elements(order) == keys && Sorted(order, BY_KEY)
    && forall i, j :: 0 <= i < j < |order| ==> order[i] != order[j]
  }

  // ---- building it

  method BuildGroups(ws: seq<Workspace>, host: HostId, names: Names, statuses: Statuses)
    returns (groups: map<GroupKey, seq<WorkspaceNode>>)
    ensures groups.Keys == KeysOf(ws, host)
    ensures forall k :: k in groups ==> groups[k] == GroupOf(ws, host, k, names, statuses)
  {
    hide NodeOf, GroupOf, KeysOf;
    groups := map[];
    NothingGrouped(host, names, statuses);
    assert ws[..0] == [];
    for i := 0 to |ws|
      invariant groups.Keys == KeysOf(ws[..i], host)
      invariant forall k :: k in groups ==> groups[k] == GroupOf(ws[..i], host, k, names, statuses)
    {
      var w := ws[i];
      GroupsGrow(ws[..i], w, host, names, statuses);
      assert ws[..i + 1] == ws[..i] + [w];
      if w.host == host {
        var key := KeyOf(w);
        groups := groups[key := (if key in groups then groups[key] else []) + [NodeOf(w, names, statuses)]];
      }
    }
    assert ws[..|ws|] == ws;
  }

  lemma NothingGrouped(host: HostId, names: Names, statuses: Statuses)
    ensures KeysOf([], host) == {}
  {
  }

  method BuildHost(s: Snapshot, h: Host, connections: map<HostId, Connection>, names: Names, statuses: Statuses)
    returns (node: HostNode)
    ensures node == HostNodeOf(s, h, connections, names, statuses)
  {
    hide GroupOf, KeysOf, KeyList, Sort, Rollup, KeyLe, StringLe, InKeyOrder;
    var groups := BuildGroups(s.workspaces, h.id, names, statuses);
    var keys := KeysInOrder(groups.Keys);
    KeyListInOrder(s.workspaces, h.id);
    OrderIsUnique(keys, KeyList(s.workspaces, h.id), groups.Keys);
    KeysAreKeys(keys, groups.Keys);
    var repositories := [];
    for i := 0 to |keys|
      invariant repositories == GroupNodes(s.workspaces, h.id, keys[..i], names, statuses)
    {
      assert keys[i] in groups;
      var nodes := Sort(groups[keys[i]], BY_TEXT);
      var status := Rollup(Map(nodes, WORKSPACE_STATUS));
      var repository :=
        match keys[i]
        case Repository(id) => RepositoryNode(Some(id), names.repository(h.id, id), nodes, status)
        case Single(_) => RepositoryNode(Option.None, "folder", nodes, status);
      assert repository == GroupNode(s.workspaces, h.id, keys[i], names, statuses);
      assert GroupNodes(s.workspaces, h.id, keys[..i + 1], names, statuses)
          == GroupNodes(s.workspaces, h.id, keys[..i], names, statuses) + [repository];
      repositories := repositories + [repository];
    }
    assert keys[..|keys|] == keys;
    repositories := Sort(repositories, REPOSITORIES_BY_TEXT);
    node := HostNode(h.id, h.displayName, if h.id in connections then connections[h.id] else Disconnected,
                     repositories, Rollup(Map(repositories, REPOSITORY_STATUS)));
  }

  method KeysInOrder(keys: set<GroupKey>) returns (order: seq<GroupKey>)
    ensures InKeyOrder(order, keys)
  {
    var some := Enumerate(keys);
    order := Sort(some, BY_KEY);
    SameMembers(order, some);
    SortSorts(some, BY_KEY);
    DistinctStays(some, order);
  }

  method BuildTree(s: Snapshot, connections: map<HostId, Connection>, names: Names, statuses: Statuses)
    returns (tree: seq<HostNode>)
    ensures tree == TreeOf(s, connections, names, statuses)
  {
    hide HostNodeOf, Sort;
    var nodes := [];
    for i := 0 to |s.hosts|
      invariant nodes == HostNodesOf(s, s.hosts[..i], connections, names, statuses)
    {
      var node := BuildHost(s, s.hosts[i], connections, names, statuses);
      assert HostNodesOf(s, s.hosts[..i + 1], connections, names, statuses)
        == HostNodesOf(s, s.hosts[..i], connections, names, statuses) + [node];
      nodes := nodes + [node];
    }
    assert s.hosts[..|s.hosts|] == s.hosts;
    tree := Sort(nodes, HOSTS_BY_TEXT);
  }

  lemma KeysAreKeys(order: seq<GroupKey>, keys: set<GroupKey>)
    requires InKeyOrder(order, keys)
    ensures forall i :: 0 <= i < |order| ==> order[i] in keys
  {
    forall i | 0 <= i < |order| ensures order[i] in keys {
      assert order[i] in Elements(order);
    }
  }

  lemma {:induction false} KeyListInOrder(ws: seq<Workspace>, host: HostId)
    ensures InKeyOrder(KeyList(ws, host), KeysOf(ws, host))
  {
    hide KeyOf, Sort;
    if ws != [] {
      var before, w := ws[..|ws| - 1], ws[|ws| - 1];
      KeyListInOrder(before, host);
      assert ws == before + [w];
      assert KeysOf(ws, host) == KeysOf(before, host) + (if w.host == host then {KeyOf(w)} else {});
      if w.host == host {
        InsertNewKey(KeyList(before, host), KeyOf(w), KeysOf(before, host));
      }
    }
  }

  lemma InsertNewKey(order: seq<GroupKey>, key: GroupKey, keys: set<GroupKey>)
    requires InKeyOrder(order, keys)
    ensures InKeyOrder(if key in order then order else Insert(order, key, BY_KEY), keys + {key})
  {
    if key in order {
      assert keys + {key} == keys;
    } else {
      var inserted := Insert(order, key, BY_KEY);
      InsertSorts(order, key, BY_KEY);
      SameMembers(order + [key], inserted);
      DistinctStays(order + [key], inserted);
      assert Elements(inserted) == keys + {key};
    }
  }

  lemma LastIsGreatest(order: seq<GroupKey>, keys: set<GroupKey>)
    requires InKeyOrder(order, keys)
    ensures order == [] <==> keys == {}
    ensures order != [] ==> order[|order| - 1] in keys && forall k :: k in keys ==> KeyLe(k, order[|order| - 1])
  {
    hide KeyLe;
    if order != [] {
      var last := order[|order| - 1];
      assert last in Elements(order);
      assert KeyLe(last, last) by { KeyLeReflexive(last); }
      forall k | k in keys ensures KeyLe(k, last) {
        assert k in Elements(order);
        var i :| 0 <= i < |order| && order[i] == k;
        assert i < |order| - 1 ==> BY_KEY(order[i], last);
      }
    }
  }

  lemma KeyLeReflexive(k: GroupKey)
    ensures KeyLe(k, k)
  {
  }

  /** There is only one order of a set of keys. */
  lemma {:induction false} OrderIsUnique(a: seq<GroupKey>, b: seq<GroupKey>, keys: set<GroupKey>)
    requires InKeyOrder(a, keys) && InKeyOrder(b, keys)
    ensures a == b
    decreases |a|
  {
    hide InKeyOrder;
    LastIsGreatest(a, keys);
    LastIsGreatest(b, keys);
    if a != [] {
      var x, y := a[|a| - 1], b[|b| - 1];
      assert KeyLe(x, y) && KeyLe(y, x);
      OrderWithoutLast(a, keys);
      OrderWithoutLast(b, keys);
      OrderIsUnique(a[..|a| - 1], b[..|b| - 1], keys - {x});
      assert a == a[..|a| - 1] + [x] && b == b[..|b| - 1] + [y];
    }
  }

  lemma OrderWithoutLast(order: seq<GroupKey>, keys: set<GroupKey>)
    requires InKeyOrder(order, keys) && order != []
    ensures InKeyOrder(order[..|order| - 1], keys - {order[|order| - 1]})
  {
    var before, last := order[..|order| - 1], order[|order| - 1];
    assert order == before + [last];
    assert last !in before;
    assert Elements(before) == keys - {last};
  }

  lemma GroupsGrow(ws: seq<Workspace>, w: Workspace, host: HostId, names: Names, statuses: Statuses)
    ensures (ws + [w])[..|ws|] == ws
    ensures KeysOf(ws + [w], host) == KeysOf(ws, host) + (if w.host == host then {KeyOf(w)} else {})
    ensures forall k :: GroupOf(ws + [w], host, k, names, statuses)
                     == GroupOf(ws, host, k, names, statuses) +
                       (if w.host == host && KeyOf(w) == k then [NodeOf(w, names, statuses)] else [])
    ensures forall k :: k !in KeysOf(ws, host) ==> GroupOf(ws, host, k, names, statuses) == []
  {
    forall k | k !in KeysOf(ws, host) ensures GroupOf(ws, host, k, names, statuses) == [] {
      NoGroup(ws, host, k, names, statuses);
    }
  }

  lemma {:induction false} NoGroup(ws: seq<Workspace>, host: HostId, k: GroupKey, names: Names, statuses: Statuses)
    requires k !in KeysOf(ws, host)
    ensures GroupOf(ws, host, k, names, statuses) == []
  {
    if ws != [] {
      var last := ws[|ws| - 1];
      assert last.host == host ==> KeyOf(last) in KeysOf(ws, host);
      NoGroup(ws[..|ws| - 1], host, k, names, statuses);
    }
  }
}

/** What the tree keeps of the snapshot it is built from: every workspace once, and the most urgent status upwards. */
module TreeProperties {
  import opened Prelude
  import opened StableSort
  import opened StatusRollup
  import opened Tree

  // ---- nodes

  lemma {:induction false} AllNodesSplits(a: seq<RepositoryNode>, b: seq<RepositoryNode>)
    ensures AllNodes(a + b) == AllNodes(a) + AllNodes(b)
  {
    if b == [] {
      assert a + b == a;
    } else {
      assert (a + b)[..|a + b| - 1] == a + b[..|b| - 1];
      AllNodesSplits(a, b[..|b| - 1]);
    }
  }

  lemma {:induction false} InsertKeepsNodes(s: seq<RepositoryNode>, x: RepositoryNode)
    ensures multiset(AllNodes(Insert(s, x, REPOSITORIES_BY_TEXT))) == multiset(AllNodes(s)) + multiset(x.workspaces)
  {
    hide StringLe;
    assert AllNodes([]) == [];
    if s == [] {
      assert AllNodes([x]) == AllNodes([x][..0]) + x.workspaces;
    } else if REPOSITORIES_BY_TEXT(s[|s| - 1], x) {
      assert (s + [x])[..|s|] == s;
    } else {
      var before, last := s[..|s| - 1], s[|s| - 1];
      InsertKeepsNodes(before, x);
      var inserted := Insert(before, x, REPOSITORIES_BY_TEXT);
      assert (inserted + [last])[..|inserted|] == inserted;
    }
  }

  lemma {:induction false} SortKeepsNodes(s: seq<RepositoryNode>)
    ensures multiset(AllNodes(Sort(s, REPOSITORIES_BY_TEXT))) == multiset(AllNodes(s))
  {
    hide Insert;
    if s != [] {
      SortKeepsNodes(s[..|s| - 1]);
      InsertKeepsNodes(Sort(s[..|s| - 1], REPOSITORIES_BY_TEXT), s[|s| - 1]);
    }
  }

  /** The groups one after the other, before sorting. */
  function Gather(ws: seq<Workspace>, host: HostId, keys: seq<GroupKey>, names: Names,
                  statuses: Statuses): seq<WorkspaceNode> {
    if keys == [] then []
    else Gather(ws, host, keys[..|keys| - 1], names, statuses) + GroupOf(ws, host, keys[|keys| - 1], names, statuses)
  }

  lemma {:induction false} GroupNodesGather(ws: seq<Workspace>, host: HostId, keys: seq<GroupKey>, names: Names,
                                            statuses: Statuses)
    ensures multiset(AllNodes(GroupNodes(ws, host, keys, names, statuses)))
            == multiset(Gather(ws, host, keys, names, statuses))
  {
    hide GroupNode, GroupOf, AllNodes;
    if keys == [] {
      NoNodes();
    } else {
      var n := |keys| - 1;
      GroupNodesGather(ws, host, keys[..n], names, statuses);
      var all := GroupNodes(ws, host, keys, names, statuses);
      assert all == GroupNodes(ws, host, keys[..n], names, statuses) + [all[n]];
      AllNodesOfOneMore(all[..n], all[n]);
      GroupNodeHolds(ws, host, keys[n], names, statuses);
    }
  }

  lemma NoNodes()
    ensures AllNodes([]) == []
  {
  }

  lemma AllNodesOfOneMore(repositories: seq<RepositoryNode>, one: RepositoryNode)
    ensures AllNodes(repositories + [one]) == AllNodes(repositories) + one.workspaces
  {
    assert (repositories + [one])[..|repositories|] == repositories;
  }

  lemma GroupNodeHolds(ws: seq<Workspace>, host: HostId, key: GroupKey, names: Names, statuses: Statuses)
    ensures multiset(GroupNode(ws, host, key, names, statuses).workspaces)
            == multiset(GroupOf(ws, host, key, names, statuses))
  {
    hide GroupOf, Rollup;
  }

  lemma GroupGrows(ws: seq<Workspace>, w: Workspace, host: HostId, key: GroupKey, names: Names, statuses: Statuses)
    ensures GroupOf(ws + [w], host, key, names, statuses)
         == GroupOf(ws, host, key, names, statuses) +
           (if w.host == host && KeyOf(w) == key then [NodeOf(w, names, statuses)] else [])
  {
    hide KeyOf, NodeOf;
    assert (ws + [w])[..|ws|] == ws;
  }

  lemma {:induction false} GatherOneMore(ws: seq<Workspace>, w: Workspace, host: HostId, keys: seq<GroupKey>,
                                         names: Names, statuses: Statuses)
    requires forall i, j :: 0 <= i < j < |keys| ==> keys[i] != keys[j]
    ensures multiset(Gather(ws + [w], host, keys, names, statuses))
         == multiset(Gather(ws, host, keys, names, statuses))
            + (if w.host == host && KeyOf(w) in keys then multiset{NodeOf(w, names, statuses)} else multiset{})
  {
    hide KeyOf, NodeOf, GroupOf, KeysOf;
    if keys != [] {
      var n := |keys| - 1;
      GatherOneMore(ws, w, host, keys[..n], names, statuses);
      GroupGrows(ws, w, host, keys[n], names, statuses);
      assert KeyOf(w) in keys <==> KeyOf(w) in keys[..n] || KeyOf(w) == keys[n];
      assert keys[n] !in keys[..n];
      MultisetsAdd(Gather(ws, host, keys[..n], names, statuses), Gather(ws + [w], host, keys[..n], names, statuses),
                   GroupOf(ws, host, keys[n], names, statuses), GroupOf(ws + [w], host, keys[n], names, statuses),
                     NodeOf(w, names, statuses));
    }
  }

  lemma MultisetsAdd<T>(a: seq<T>, a': seq<T>, b: seq<T>, b': seq<T>, x: T)
    ensures multiset(a') == multiset(a) && b' == b ==> multiset(a' + b') == multiset(a + b)
    ensures multiset(a') == multiset(a) + multiset{x} && b' == b ==> multiset(a' + b') == multiset(a + b) + multiset{x}
    ensures multiset(a') == multiset(a) && b' == b + [x] ==> multiset(a' + b') == multiset(a + b) + multiset{x}
  {
  }

  /** Grouping neither loses nor invents a node. */
  lemma {:induction false} GroupsPartition(ws: seq<Workspace>, host: HostId, keys: seq<GroupKey>, names: Names,
                                           statuses: Statuses)
    requires forall i, j :: 0 <= i < j < |keys| ==> keys[i] != keys[j]
    requires KeysOf(ws, host) <= Elements(keys)
    ensures multiset(Gather(ws, host, keys, names, statuses)) == multiset(NodesOf(ws, host, names, statuses))
  {
    hide NodeOf, GroupOf, Gather;
    if ws == [] {
      EmptyGather(host, keys, names, statuses);
    } else {
      var before, w := ws[..|ws| - 1], ws[|ws| - 1];
      assert ws == before + [w];
      assert KeysOf(before, host) <= KeysOf(ws, host);
      GroupsPartition(before, host, keys, names, statuses);
      GatherOneMore(before, w, host, keys, names, statuses);
      assert w.host == host ==> KeyOf(w) in KeysOf(ws, host);
    }
  }

  lemma {:induction false} EmptyGather(host: HostId, keys: seq<GroupKey>, names: Names, statuses: Statuses)
    ensures Gather([], host, keys, names, statuses) == []
  {
    if keys != [] {
      EmptyGather(host, keys[..|keys| - 1], names, statuses);
    }
  }

  /** A host's repositories hold exactly the nodes of its workspaces. */
  lemma HostKeepsWorkspaces(ws: seq<Workspace>, host: HostId, names: Names, statuses: Statuses)
    ensures multiset(AllNodes(Repositories(ws, host, names, statuses))) == multiset(NodesOf(ws, host, names, statuses))
  {
    hide Sort, GroupNodes, Gather, NodesOf, AllNodes, Rollup, KeysOf;
    var repositories := Repositories(ws, host, names, statuses);
    var keys := KeyList(ws, host);
    KeyListInOrder(ws, host);
    SortKeepsNodes(GroupNodes(ws, host, keys, names, statuses));
    GroupNodesGather(ws, host, keys, names, statuses);
    GroupsPartition(ws, host, keys, names, statuses);
  }

  lemma {:induction false} GroupMembers(ws: seq<Workspace>, host: HostId, key: GroupKey, names: Names,
                                        statuses: Statuses, n: WorkspaceNode)
    requires n in GroupOf(ws, host, key, names, statuses)
    ensures exists w :: w in ws && w.host == host && KeyOf(w) == key && NodeOf(w, names, statuses) == n
  {
    hide KeyOf, NodeOf;
    if ws != [] {
      var before, last := ws[..|ws| - 1], ws[|ws| - 1];
      if n in GroupOf(before, host, key, names, statuses) {
        GroupMembers(before, host, key, names, statuses, n);
      }
    }
  }

  /** Where a repository node of a host comes from. */
  lemma NodeIsAGroup(ws: seq<Workspace>, host: HostId, names: Names, statuses: Statuses, i: nat)
    returns (key: GroupKey)
    requires i < |Repositories(ws, host, names, statuses)|
    ensures key in KeysOf(ws, host)
    ensures Repositories(ws, host, names, statuses)[i] == GroupNode(ws, host, key, names, statuses)
  {
    hide Sort, Rollup, GroupNode, KeysOf;
    var repositories := Repositories(ws, host, names, statuses);
    var keys := KeyList(ws, host);
    KeyListInOrder(ws, host);
    var unsorted := GroupNodes(ws, host, keys, names, statuses);
    SameMembers(repositories, unsorted);
    assert repositories[i] in unsorted;
    var j :| 0 <= j < |unsorted| && unsorted[j] == repositories[i];
    key := keys[j];
    assert key in Elements(keys);
  }

  /** A node shows what the snapshot and the statuses say of its workspace; a path stands in for a missing name. */
  predicate Represents(n: WorkspaceNode, w: Workspace, names: Names, statuses: Statuses) {
    && n.id == w.id && n.rootPath == w.rootPath && n.setupFailed == w.setupFailed
    && n.status == StatusOf(w, statuses)
    && (w.displayName.Some? ==> n.text == w.displayName.value)
    && (w.displayName.None? && names.fileName(w.rootPath).Some? ==> n.text == names.fileName(w.rootPath).value)
    && (w.displayName.None? && names.fileName(w.rootPath).None? ==> n.text == w.rootPath)
  }

  /** A workspace without an agent run is idle. */
  function StatusOf(w: Workspace, statuses: Statuses): DisplayStatus {
    if w.id in statuses then statuses[w.id] else Idle
  }

  /** A repository node holds workspaces of that repository only, each as the snapshot and the statuses have it. */
  lemma RepositoriesArePure(ws: seq<Workspace>, host: HostId, names: Names, statuses: Statuses,
                            i: nat, n: WorkspaceNode)
    requires i < |Repositories(ws, host, names, statuses)| && n in Repositories(ws, host, names, statuses)[i].workspaces
    ensures exists w ::
            w in ws && w.host == host && w.repository == Repositories(ws, host, names, statuses)[i].id
              && Represents(n, w, names, statuses)
  {
    hide Repositories, Sort, Rollup, GroupOf, KeysOf;
    var repositories := Repositories(ws, host, names, statuses);
    var key := NodeIsAGroup(ws, host, names, statuses, i);
    SameMembers(repositories[i].workspaces, GroupOf(ws, host, key, names, statuses));
    GroupMembers(ws, host, key, names, statuses, n);
    var w :| w in ws && w.host == host && KeyOf(w) == key && NodeOf(w, names, statuses) == n;
    assert Represents(n, w, names, statuses);
  }

  /**
   A repository node shows its repository's name, a single workspace's node that it is a folder; a host its
   own name.
   */
  lemma NodesShowThemselves(s: Snapshot, h: Host, connections: map<HostId, Connection>, names: Names,
                            statuses: Statuses, i: nat)
    requires i < |HostNodeOf(s, h, connections, names, statuses).repositories|
    ensures var node := HostNodeOf(s, h, connections, names, statuses);
            var repository := node.repositories[i];
            && node.id == h.id && node.text == h.displayName
            && node.connection == (if h.id in connections then connections[h.id] else Disconnected)
            && repository.text
                 == (if repository.id.Some? then names.repository(h.id, repository.id.value) else "folder")
            && repository.workspaces != [] && (repository.id.None? ==> OneWorkspace(repository.workspaces))
  {
    hide Repositories, Sort, Rollup, GroupOf, KeysOf;
    var repositories := Repositories(s.workspaces, h.id, names, statuses);
    var key := NodeIsAGroup(s.workspaces, h.id, names, statuses, i);
    SameMembers(repositories[i].workspaces, GroupOf(s.workspaces, h.id, key, names, statuses));
    GroupHasMembers(s.workspaces, h.id, key, names, statuses);
    assert GroupOf(s.workspaces, h.id, key, names, statuses)[0] in repositories[i].workspaces;
    assert repositories[i].id.None? ==> key.Single?;
    forall n | n in repositories[i].workspaces && key.Single? ensures n.id == key.workspace {
      GroupMembers(s.workspaces, h.id, key, names, statuses, n);
    }
  }

  /** However often it is registered. */
  predicate OneWorkspace(nodes: seq<WorkspaceNode>) {
    forall i, j :: 0 <= i < j < |nodes| ==> nodes[i].id == nodes[j].id
  }

  lemma {:induction false} GroupHasMembers(ws: seq<Workspace>, host: HostId, key: GroupKey, names: Names,
                                           statuses: Statuses)
    requires key in KeysOf(ws, host)
    ensures GroupOf(ws, host, key, names, statuses) != []
  {
    hide NodeOf;
    var before, last := ws[..|ws| - 1], ws[|ws| - 1];
    if !(last.host == host && KeyOf(last) == key) {
      assert ws == before + [last];
      GroupHasMembers(before, host, key, names, statuses);
    }
  }

  predicate DistinctRepositories(nodes: seq<RepositoryNode>) {
    forall i, j :: 0 <= i < j < |nodes| && nodes[i].id.Some? ==> nodes[i].id != nodes[j].id
  }

  lemma {:induction false} OnceByRepository(nodes: seq<RepositoryNode>, x: RepositoryNode)
    requires DistinctRepositories(nodes) && x.id.Some?
    ensures multiset(nodes)[x] <= 1
  {
    if nodes != [] {
      var before, last := nodes[..|nodes| - 1], nodes[|nodes| - 1];
      OnceByRepository(before, x);
      assert nodes == before + [last];
      assert x == last ==> x !in before;
    }
  }

  lemma RepositoriesStayDistinct(a: seq<RepositoryNode>, b: seq<RepositoryNode>)
    requires multiset(a) == multiset(b) && DistinctRepositories(a)
    ensures DistinctRepositories(b)
  {
    forall i, j | 0 <= i < j < |b| && b[i].id.Some? ensures b[i].id != b[j].id {
      SameMembers(a, b);
      assert b[i] in a && b[j] in a;
      if b[i] == b[j] {
        assert b == b[..i] + [b[i]] + b[i + 1..j] + [b[j]] + b[j + 1..];
        OnceByRepository(a, b[i]);
      }
    }
  }

  /** All workspaces of a repository are under one node of the host. */
  lemma OneNodePerRepository(ws: seq<Workspace>, host: HostId, names: Names, statuses: Statuses)
    ensures DistinctRepositories(Repositories(ws, host, names, statuses))
  {
    hide Sort, Rollup, GroupOf, KeysOf;
    var repositories := Repositories(ws, host, names, statuses);
    var keys := KeyList(ws, host);
    KeyListInOrder(ws, host);
    RepositoriesStayDistinct(GroupNodes(ws, host, keys, names, statuses), repositories);
  }

  // ---- order

  /** Hosts, the repositories of a host and the workspaces of a repository are shown in the order of their texts. */
  lemma EverythingIsSorted(s: Snapshot, connections: map<HostId, Connection>, names: Names, statuses: Statuses,
                           host: HostId)
    ensures Sorted(TreeOf(s, connections, names, statuses), HOSTS_BY_TEXT)
    ensures Sorted(Repositories(s.workspaces, host, names, statuses), REPOSITORIES_BY_TEXT)
    ensures forall key :: Sorted(GroupNode(s.workspaces, host, key, names, statuses).workspaces, BY_TEXT)
  {
    hide Sort, StringLe, Sorted, TotalPreorder, HostNodeOf, GroupOf, Rollup;
    TextsOrder(HOSTS_BY_TEXT, (n: HostNode) => n.text);
    SortSorts(HostNodesOf(s, s.hosts, connections, names, statuses), HOSTS_BY_TEXT);
    TextsOrder(REPOSITORIES_BY_TEXT, (n: RepositoryNode) => n.text);
    SortSorts(GroupNodes(s.workspaces, host, KeyList(s.workspaces, host), names, statuses), REPOSITORIES_BY_TEXT);
    TextsOrder(BY_TEXT, (n: WorkspaceNode) => n.text);
    forall key ensures Sorted(GroupNode(s.workspaces, host, key, names, statuses).workspaces, BY_TEXT) {
      SortSorts(GroupOf(s.workspaces, host, key, names, statuses), BY_TEXT);
    }
  }

  /** Repositories by their identifier, and folders after them. */
  const REPOSITORIES_FIRST := (a: RepositoryNode, b: RepositoryNode) =>
    b.id.Some? ==> a.id.Some? && a.id.value <= b.id.value

  /** Of nodes with the same text, repositories come before folders, and by their identifiers. */
  lemma SameTextsByRepository(ws: seq<Workspace>, host: HostId, names: Names, statuses: Statuses, i: nat, j: nat)
    requires i < j < |Repositories(ws, host, names, statuses)|
    requires Repositories(ws, host, names, statuses)[i].text == Repositories(ws, host, names, statuses)[j].text
    ensures var nodes := Repositories(ws, host, names, statuses);
            nodes[j].id.Some? ==> nodes[i].id.Some? && nodes[i].id.value <= nodes[j].id.value
  {
    hide Sort, StringLe, TotalPreorder, GroupOf, Rollup, KeysOf;
    var keys := KeyList(ws, host);
    KeyListInOrder(ws, host);
    var unsorted := GroupNodes(ws, host, keys, names, statuses);
    forall a, b | 0 <= a < b < |unsorted| ensures REPOSITORIES_FIRST(unsorted[a], unsorted[b]) {
      assert BY_KEY(keys[a], keys[b]);
    }
    TextsOrder(REPOSITORIES_BY_TEXT, (n: RepositoryNode) => n.text);
    SortKeepsOrderOfTies(unsorted, REPOSITORIES_FIRST, REPOSITORIES_BY_TEXT);
    var nodes := Sort(unsorted, REPOSITORIES_BY_TEXT);
    StringLeTotal(nodes[i].text, nodes[j].text);
    assert REPOSITORIES_BY_TEXT(nodes[j], nodes[i]);
    assert REPOSITORIES_FIRST(nodes[i], nodes[j]);
  }

  // ---- statuses

  function GroupStatuses(repositories: seq<RepositoryNode>): (g: seq<seq<DisplayStatus>>)
    ensures |g| == |repositories| && forall i :: 0 <= i < |g| ==>
              g[i] == Map(repositories[i].workspaces, WORKSPACE_STATUS)
  {
    seq(|repositories|, i requires 0 <= i < |repositories| => Map(repositories[i].workspaces, WORKSPACE_STATUS))
  }

  lemma {:induction false} ConcatIsAll(repositories: seq<RepositoryNode>)
    ensures Concat(GroupStatuses(repositories)) == Map(AllNodes(repositories), WORKSPACE_STATUS)
  {
    if repositories != [] {
      var n := |repositories| - 1;
      ConcatIsAll(repositories[..n]);
      assert GroupStatuses(repositories)[..n] == GroupStatuses(repositories[..n]);
      assert Map(AllNodes(repositories), WORKSPACE_STATUS)
        == Map(AllNodes(repositories[..n]), WORKSPACE_STATUS) + Map(repositories[n].workspaces, WORKSPACE_STATUS);
    }
  }

  /** Every repository shows the most urgent status of its workspaces. */
  lemma RepositoryStatusesAreRollups(ws: seq<Workspace>, host: HostId, names: Names, statuses: Statuses)
    ensures Map(Repositories(ws, host, names, statuses), REPOSITORY_STATUS)
            == Rollups(GroupStatuses(Repositories(ws, host, names, statuses)))
  {
    hide Sort, Rollup, GroupOf;
    var repositories := Repositories(ws, host, names, statuses);
    var keys := KeyList(ws, host);
    KeyListInOrder(ws, host);
    var unsorted := GroupNodes(ws, host, keys, names, statuses);
    SameMembers(repositories, unsorted);
    forall i | 0 <= i < |repositories|
      ensures repositories[i].status == Rollup(Map(repositories[i].workspaces, WORKSPACE_STATUS))
    {
      assert repositories[i] in unsorted;
      var j :| 0 <= j < |unsorted| && unsorted[j] == repositories[i];
    }
  }

  /** The statuses of one host's workspaces, in the order of the snapshot. */
  function HostStatuses(ws: seq<Workspace>, host: HostId, statuses: Statuses): seq<DisplayStatus> {
    if ws == [] then []
    else HostStatuses(ws[..|ws| - 1], host, statuses) +
         if ws[|ws| - 1].host == host then [StatusOf(ws[|ws| - 1], statuses)] else []
  }

  lemma {:induction false} NodesShowStatuses(ws: seq<Workspace>, host: HostId, names: Names, statuses: Statuses)
    ensures Map(NodesOf(ws, host, names, statuses), WORKSPACE_STATUS) == HostStatuses(ws, host, statuses)
  {
    if ws != [] {
      NodesShowStatuses(ws[..|ws| - 1], host, names, statuses);
    }
  }

  /** A host shows the most urgent status of all its workspaces, although it only looks at its repositories. */
  lemma HostStatusIsMostUrgent(s: Snapshot, h: Host, connections: map<HostId, Connection>, names: Names,
                               statuses: Statuses)
    ensures HostNodeOf(s, h, connections, names, statuses).status
            == Rollup(HostStatuses(s.workspaces, h.id, statuses))
  {
    NodesShowStatuses(s.workspaces, h.id, names, statuses);
    hide Rollup, NodesOf, HostStatuses, AllNodes, Repositories;
    var repositories := Repositories(s.workspaces, h.id, names, statuses);
    RepositoryStatusesAreRollups(s.workspaces, h.id, names, statuses);
    RollupOfRollups(GroupStatuses(repositories));
    ConcatIsAll(repositories);
    HostKeepsWorkspaces(s.workspaces, h.id, names, statuses);
    var shown, known := AllNodes(repositories), NodesOf(s.workspaces, h.id, names, statuses);
    SameMembers(shown, known);
    SameStatuses(shown, known);
    RollupIgnoresOrder(Map(shown, WORKSPACE_STATUS), Map(known, WORKSPACE_STATUS));
  }

  lemma SameStatuses(a: seq<WorkspaceNode>, b: seq<WorkspaceNode>)
    requires forall n :: n in a <==> n in b
    ensures forall x :: x in Map(a, WORKSPACE_STATUS) <==> x in Map(b, WORKSPACE_STATUS)
  {
    forall x ensures x in Map(a, WORKSPACE_STATUS) <==> x in Map(b, WORKSPACE_STATUS) {
      if x in Map(a, WORKSPACE_STATUS) {
        var i :| 0 <= i < |a| && Map(a, WORKSPACE_STATUS)[i] == x;
        assert a[i] in b;
        var j :| 0 <= j < |b| && b[j] == a[i];
        assert Map(b, WORKSPACE_STATUS)[j] == x;
      }
      if x in Map(b, WORKSPACE_STATUS) {
        var i :| 0 <= i < |b| && Map(b, WORKSPACE_STATUS)[i] == x;
        assert b[i] in a;
        var j :| 0 <= j < |a| && a[j] == b[i];
        assert Map(a, WORKSPACE_STATUS)[j] == x;
      }
    }
  }
}

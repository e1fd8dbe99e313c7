/** The client's selection: it moves through the workspaces in the order the tree shows them. */
module Selection {
  import opened Prelude
  import opened StableSort
  import opened StatusRollup
  import opened Tree
  import opened TreeProperties

  const TWO_31 := 0x8000_0000

  /** The result of a 32-bit signed addition. */
  function Wrap32(n: int): int {
    (n + TWO_31) % TWO_32 - TWO_31
  }

  function Ids(nodes: seq<WorkspaceNode>): (ids: seq<WorkspaceId>)
    ensures |ids| == |nodes| && forall i :: 0 <= i < |ids| ==> ids[i] == nodes[i].id
  {
    seq(|nodes|, i requires 0 <= i < |nodes| => nodes[i].id)
  }

  /** The identifiers of all shown workspaces, from top to bottom. */
  function TreeIds(tree: seq<HostNode>): seq<WorkspaceId> {
    if tree == [] then [] else TreeIds(tree[..|tree| - 1]) + Ids(AllNodes(tree[|tree| - 1].repositories))
  }

  function Position(ids: seq<WorkspaceId>, id: WorkspaceId): (p: Option<nat>)
    ensures p.Some? <==> id in ids
    ensures p.Some? ==> p.value < |ids| && ids[p.value] == id && forall j :: 0 <= j < p.value ==> ids[j] != id
  {
    if ids == [] then Option.None
    else if ids[0] == id then Some(0)
    else
      match Position(ids[1..], id)
      case None => Option.None
      case Some(i) => Some(i + 1)
  }

  function Moved(ids: seq<WorkspaceId>, selected: Option<WorkspaceId>, direction: int): WorkspaceId
    requires ids != []
  {
    var current := if selected.Some? && selected.value in ids then Position(ids, selected.value).value else 0;
    ids[Wrap32(current + direction) % |ids|]
  }

  class ClientState {
    const names: Names
    var snapshot: Snapshot
    var connections: map<HostId, Connection>
    var statuses: Statuses
    var tree: seq<HostNode>
    var selectedWorkspace: Option<WorkspaceId>
    var selectedHost: Option<HostId>

    /** A selection that is no longer shown falls back to the first shown workspace. */
    method RebuildTree()
      modifies this`tree, this`selectedWorkspace
      ensures tree == TreeOf(snapshot, connections, names, statuses)
      ensures selectedWorkspace == if old(selectedWorkspace).None? || old(selectedWorkspace).value in TreeIds(tree)
              then old(selectedWorkspace)
                                   else if TreeIds(tree) == [] then Option.None else Some(TreeIds(tree)[0])
    {
      tree := BuildTree(snapshot, connections, names, statuses);
      var ids := WorkspaceIds();
      if selectedWorkspace.Some? && selectedWorkspace.value !in ids {
        selectedWorkspace := if ids == [] then Option.None else Some(ids[0]);
      }
    }

    method WorkspaceIds() returns (ids: seq<WorkspaceId>)
      ensures ids == TreeIds(tree)
    {
      ids := [];
      for i := 0 to |tree|
        invariant ids == TreeIds(tree[..i])
      {
        assert tree[..i + 1][..i] == tree[..i];
        ids := ids + Ids(AllNodes(tree[i].repositories));
      }
      assert tree[..|tree|] == tree;
    }

    function HostForWorkspace(id: WorkspaceId): (h: Option<HostId>)
      reads this
    {
      FirstHost(snapshot.workspaces, id)
    }

    method SelectNext(direction: int)
      requires -TWO_31 <= direction < TWO_31
      modifies this`selectedWorkspace, this`selectedHost
      ensures var ids := TreeIds(tree);
              if ids == [] then selectedWorkspace == Option.None && selectedHost == old(selectedHost)
              else selectedWorkspace == Some(Moved(ids, old(selectedWorkspace), direction))
                   && selectedWorkspace.value in ids && selectedHost == HostForWorkspace(selectedWorkspace.value)
    {
      hide TreeIds, FirstHost;
      var ids := WorkspaceIds();
      if ids == [] {
        selectedWorkspace := Option.None;
        return;
      }
      var current := 0;
      if selectedWorkspace.Some? {
        var position := Position(ids, selectedWorkspace.value);
        if position.Some? {
          current := position.value;
        }
      }
      var next := Wrap32(current + direction) % |ids|;
      selectedWorkspace := Some(ids[next]);
      selectedHost := HostForWorkspace(ids[next]);
    }
  }

  predicate IsFirstOf(ws: seq<Workspace>, id: WorkspaceId, i: int) {
    0 <= i < |ws| && ws[i].id == id && forall j :: 0 <= j < i ==> ws[j].id != id
  }

  function FirstHost(ws: seq<Workspace>, id: WorkspaceId): (h: Option<HostId>)
    ensures h.Some? <==> exists i :: 0 <= i < |ws| && ws[i].id == id
    ensures h.Some? ==> exists i :: IsFirstOf(ws, id, i) && ws[i].host == h.value
  {
    if ws == [] then Option.None
    else if ws[0].id == id then Some(ws[0].host)
    else
      assert forall i :: 1 <= i < |ws| ==> ws[i] == ws[1..][i - 1];
      FirstHost(ws[1..], id)
  }

  // ---- every workspace of a known host is shown exactly once

  predicate DistinctIds(ids: seq<WorkspaceId>) {
    forall i, j :: 0 <= i < j < |ids| ==> ids[i] != ids[j]
  }

  predicate UniqueSnapshot(s: Snapshot) {
    && (forall i, j :: 0 <= i < j < |s.hosts| ==> s.hosts[i].id != s.hosts[j].id)
    && (forall i, j :: 0 <= i < j < |s.workspaces| ==> s.workspaces[i].id != s.workspaces[j].id)
  }

  lemma WithoutOne(b: seq<WorkspaceNode>, j: nat)
    requires j < |b|
    ensures multiset(b[..j] + b[j + 1..]) == multiset(b) - multiset{b[j]}
    ensures multiset(Ids(b)) == multiset(Ids(b[..j] + b[j + 1..])) + multiset{b[j].id}
  {
    assert b == b[..j] + [b[j]] + b[j + 1..];
    assert Ids(b) == Ids(b[..j]) + [b[j].id] + Ids(b[j + 1..]);
    assert Ids(b[..j] + b[j + 1..]) == Ids(b[..j]) + Ids(b[j + 1..]);
  }

  lemma {:induction false} IdsByMultiset(a: seq<WorkspaceNode>, b: seq<WorkspaceNode>)
    requires multiset(a) == multiset(b)
    ensures multiset(Ids(a)) == multiset(Ids(b))
    decreases |a|
  {
    assert b != [] ==> b[0] in b;
    SameMembers(a, b);
    if a != [] {
      var n := |a| - 1;
      assert a[n] in b;
      var j :| 0 <= j < |b| && b[j] == a[n];
      WithoutOne(b, j);
      WithoutOne(a, n);
      assert a[..n] + a[n + 1..] == a[..n];
      IdsByMultiset(a[..n], b[..j] + b[j + 1..]);
    }
  }

  ghost predicate Belongs(ws: seq<Workspace>, id: WorkspaceId, host: HostId) {
    exists i :: 0 <= i < |ws| && ws[i].id == id && ws[i].host == host
  }

  lemma {:induction false} IdsOfHost(ws: seq<Workspace>, host: HostId, names: Names, statuses: Statuses,
                                     id: WorkspaceId)
    requires forall i, j :: 0 <= i < j < |ws| ==> ws[i].id != ws[j].id
    ensures multiset(Ids(NodesOf(ws, host, names, statuses)))[id] == if Belongs(ws, id, host) then 1 else 0
  {
    if ws != [] {
      var before, last := ws[..|ws| - 1], ws[|ws| - 1];
      IdsOfHost(before, host, names, statuses, id);
      BelongsOneMore(before, last, id, host);
      assert ws == before + [last];
      var nodes := NodesOf(before, host, names, statuses);
      if last.host == host {
        assert NodesOf(ws, host, names, statuses) == nodes + [NodeOf(last, names, statuses)];
        assert Ids(NodesOf(ws, host, names, statuses)) == Ids(nodes) + [last.id];
      } else {
        assert NodesOf(ws, host, names, statuses) == nodes;
      }
    }
  }

  lemma BelongsOneMore(ws: seq<Workspace>, w: Workspace, id: WorkspaceId, host: HostId)
    ensures Belongs(ws + [w], id, host) <==> Belongs(ws, id, host) || (w.id == id && w.host == host)
    ensures (forall i :: 0 <= i < |ws| ==> ws[i].id != w.id) && w.id == id ==> !Belongs(ws, id, host)
  {
    if Belongs(ws, id, host) {
      var i :| 0 <= i < |ws| && ws[i].id == id && ws[i].host == host;
      assert (ws + [w])[i] == ws[i];
    }
    assert (ws + [w])[|ws|] == w;
  }

  ghost predicate KnownAmong(s: Snapshot, n: nat, id: WorkspaceId)
    requires n <= |s.hosts|
  {
    exists h :: 0 <= h < n && Belongs(s.workspaces, id, s.hosts[h].id)
  }

  lemma {:induction false} CountBeforeSorting(s: Snapshot, n: nat, connections: map<HostId, Connection>, names: Names,
                                              statuses: Statuses, id: WorkspaceId)
    requires UniqueSnapshot(s) && n <= |s.hosts|
    ensures multiset(TreeIds(HostNodesOf(s, s.hosts[..n], connections, names, statuses)))[id]
            == if KnownAmong(s, n, id) then 1 else 0
  {
    hide NodesOf, AllNodes, Repositories, Rollup;
    if n > 0 {
      var host := s.hosts[n - 1];
      CountBeforeSorting(s, n - 1, connections, names, statuses, id);
      var nodes := HostNodesOf(s, s.hosts[..n], connections, names, statuses);
      assert nodes[..n - 1] == HostNodesOf(s, s.hosts[..n - 1], connections, names, statuses);
      HostKeepsWorkspaces(s.workspaces, host.id, names, statuses);
      IdsByMultiset(AllNodes(nodes[n - 1].repositories), NodesOf(s.workspaces, host.id, names, statuses));
      IdsOfHost(s.workspaces, host.id, names, statuses, id);
      BelongsOnce(s, n - 1, id);
    }
  }

  lemma OneHostPerWorkspace(s: Snapshot, id: WorkspaceId, a: HostId, b: HostId)
    requires UniqueSnapshot(s) && Belongs(s.workspaces, id, a) && Belongs(s.workspaces, id, b)
    ensures a == b
  {
    var i :| 0 <= i < |s.workspaces| && s.workspaces[i].id == id && s.workspaces[i].host == a;
    var j :| 0 <= j < |s.workspaces| && s.workspaces[j].id == id && s.workspaces[j].host == b;
    assert i == j;
  }

  lemma BelongsOnce(s: Snapshot, h: nat, id: WorkspaceId)
    requires UniqueSnapshot(s) && h < |s.hosts|
    ensures KnownAmong(s, h + 1, id) <==> KnownAmong(s, h, id) || Belongs(s.workspaces, id, s.hosts[h].id)
    ensures Belongs(s.workspaces, id, s.hosts[h].id) ==> !KnownAmong(s, h, id)
  {
    if KnownAmong(s, h + 1, id) {
      var k :| 0 <= k < h + 1 && Belongs(s.workspaces, id, s.hosts[k].id);
    }
    if KnownAmong(s, h, id) && Belongs(s.workspaces, id, s.hosts[h].id) {
      var k :| 0 <= k < h && Belongs(s.workspaces, id, s.hosts[k].id);
      OneHostPerWorkspace(s, id, s.hosts[k].id, s.hosts[h].id);
    }
  }

  lemma {:induction false} InsertKeepsIds(nodes: seq<HostNode>, x: HostNode)
    ensures multiset(TreeIds(Insert(nodes, x, HOSTS_BY_TEXT)))
            == multiset(TreeIds(nodes)) + multiset(Ids(AllNodes(x.repositories)))
  {
    hide StringLe, AllNodes;
    assert TreeIds([]) == [];
    if nodes == [] {
      assert TreeIds([x]) == TreeIds([x][..0]) + Ids(AllNodes(x.repositories));
    } else if HOSTS_BY_TEXT(nodes[|nodes| - 1], x) {
      assert (nodes + [x])[..|nodes|] == nodes;
    } else {
      var before, last := nodes[..|nodes| - 1], nodes[|nodes| - 1];
      InsertKeepsIds(before, x);
      var inserted := Insert(before, x, HOSTS_BY_TEXT);
      assert (inserted + [last])[..|inserted|] == inserted;
    }
  }

  lemma {:induction false} SortKeepsIds(nodes: seq<HostNode>)
    ensures multiset(TreeIds(Sort(nodes, HOSTS_BY_TEXT))) == multiset(TreeIds(nodes))
  {
    hide Insert, AllNodes;
    if nodes != [] {
      SortKeepsIds(nodes[..|nodes| - 1]);
      InsertKeepsIds(Sort(nodes[..|nodes| - 1], HOSTS_BY_TEXT), nodes[|nodes| - 1]);
    }
  }

  /** With unique identifiers, the tree shows every workspace of a known host exactly once, and nothing else. */
  lemma EveryWorkspaceOnce(s: Snapshot, connections: map<HostId, Connection>, names: Names, statuses: Statuses,
                           id: WorkspaceId)
    requires UniqueSnapshot(s)
    ensures multiset(TreeIds(TreeOf(s, connections, names, statuses)))[id] == if KnownAmong(s, |s.hosts|, id) then 1
            else 0
  {
    hide Sort, TreeIds;
    assert s.hosts[..|s.hosts|] == s.hosts;
    SortKeepsIds(HostNodesOf(s, s.hosts, connections, names, statuses));
    CountBeforeSorting(s, |s.hosts|, connections, names, statuses, id);
  }

  lemma ShownIdsAreDistinct(s: Snapshot, connections: map<HostId, Connection>, names: Names, statuses: Statuses)
    requires UniqueSnapshot(s)
    ensures DistinctIds(TreeIds(TreeOf(s, connections, names, statuses)))
  {
    hide TreeOf, TreeIds, UniqueSnapshot;
    var ids := TreeIds(TreeOf(s, connections, names, statuses));
    forall i, j | 0 <= i < j < |ids| ensures ids[i] != ids[j] {
      EveryWorkspaceOnce(s, connections, names, statuses, ids[i]);
      assert ids == ids[..i] + [ids[i]] + ids[i + 1..j] + [ids[j]] + ids[j + 1..];
    }
  }

  // ---- walking through the workspaces

  function Walk(ids: seq<WorkspaceId>, selected: WorkspaceId, steps: nat): WorkspaceId
    requires ids != []
  {
    if steps == 0 then selected else Moved(ids, Some(Walk(ids, selected, steps - 1)), 1)
  }

  /** Remainders one modulus around zero. */
  lemma NearRemainder(x: int, n: int)
    requires n > 0 && -n <= x < 2 * n
    ensures x % n == if x < 0 then x + n else if x < n then x else x - n
  {
    var q, r := x / n, x % n;
    assert x == q * n + r;
    assert q >= 2 ==> q * n >= 2 * n;
    assert q <= -2 ==> q * n <= -2 * n;
  }

  function Around(p: int, n: int): int {
    if p < 0 then p + n else if p < n then p else p - n
  }

  lemma MovedByPosition(ids: seq<WorkspaceId>, p: nat, direction: int)
    requires DistinctIds(ids) && p < |ids| < TWO_31 && -|ids| <= direction <= |ids| && p + direction < TWO_31
    ensures Moved(ids, Some(ids[p]), direction) == ids[Around(p + direction, |ids|)]
  {
    assert Position(ids, ids[p]) == Some(p);
    assert Wrap32(p + direction) == p + direction;
    NearRemainder(p + direction, |ids|);
  }

  lemma {:induction false} WalkByPosition(ids: seq<WorkspaceId>, p: nat, steps: nat)
    requires DistinctIds(ids) && p < |ids| < TWO_31 && steps <= |ids|
    ensures Walk(ids, ids[p], steps) == ids[Around(p + steps, |ids|)]
  {
    hide Moved, DistinctIds;
    if steps > 0 {
      WalkByPosition(ids, p, steps - 1);
      MovedByPosition(ids, Around(p + steps - 1, |ids|), 1);
    }
  }

  /** Going down from `selected` comes past `id` within one round. */
  ghost predicate Passes(ids: seq<WorkspaceId>, selected: WorkspaceId, id: WorkspaceId)
    requires ids != []
  {
    exists k :: 1 <= k <= |ids| && Walk(ids, selected, k) == id
  }

  lemma PassesAt(ids: seq<WorkspaceId>, selected: WorkspaceId, id: WorkspaceId, k: nat)
    requires 1 <= k <= |ids| && Walk(ids, selected, k) == id
    ensures Passes(ids, selected, id)
  {
  }

  /** From a shown workspace, as many steps as there are workspaces visit each of them and return. */
  lemma WalkVisitsAllAndReturns(ids: seq<WorkspaceId>, selected: WorkspaceId)
    requires DistinctIds(ids) && selected in ids && |ids| < TWO_31
    ensures Walk(ids, selected, |ids|) == selected
    ensures forall id :: id in ids ==> Passes(ids, selected, id)
  {
    hide DistinctIds, Walk, Passes;
    var p := Position(ids, selected).value;
    WalkByPosition(ids, p, |ids|);
    forall id | id in ids ensures Passes(ids, selected, id) {
      var q := Position(ids, id).value;
      var k := if q > p then q - p else q - p + |ids|;
      WalkByPosition(ids, p, k);
      PassesAt(ids, selected, id, k);
    }
  }

  /** Moving back undoes moving forward. */
  lemma BackUndoesForward(ids: seq<WorkspaceId>, selected: WorkspaceId)
    requires DistinctIds(ids) && selected in ids && |ids| < TWO_31
    ensures Moved(ids, Some(Moved(ids, Some(selected), 1)), -1) == selected
    ensures Moved(ids, Some(Moved(ids, Some(selected), -1)), 1) == selected
  {
    hide Moved, DistinctIds;
    var p: nat, n: nat := Position(ids, selected).value, |ids|;
    MovedByPosition(ids, p, 1);
    MovedByPosition(ids, p, -1);
    var up: nat := if p + 1 < n then p + 1 else 0;
    var down: nat := if p == 0 then n - 1 else p - 1;
    MovedByPosition(ids, up, -1);
    MovedByPosition(ids, down, 1);
  }

  /** After a rebuild with unique identifiers, walking down passes every workspace of every known host and returns. */
  lemma WalkingTheTree(s: Snapshot, connections: map<HostId, Connection>, names: Names, statuses: Statuses,
                       selected: WorkspaceId)
    requires UniqueSnapshot(s) && |s.workspaces| < TWO_31 && KnownAmong(s, |s.hosts|, selected)
    ensures var ids := TreeIds(TreeOf(s, connections, names, statuses));
            && selected in ids && Walk(ids, selected, |ids|) == selected
            && forall id :: KnownAmong(s, |s.hosts|, id) ==> Passes(ids, selected, id)
  {
    hide TreeOf, TreeIds, UniqueSnapshot, Walk, Passes, KnownAmong;
    var ids := TreeIds(TreeOf(s, connections, names, statuses));
    ShownIdsAreDistinct(s, connections, names, statuses);
    forall id | KnownAmong(s, |s.hosts|, id) ensures id in ids {
      EveryWorkspaceOnce(s, connections, names, statuses, id);
      assert id in multiset(ids);
    }
    forall id | id in ids ensures KnownAmong(s, |s.hosts|, id) {
      EveryWorkspaceOnce(s, connections, names, statuses, id);
      assert id in multiset(ids);
    }
    NoMoreThanWorkspaces(s, ids);
    WalkVisitsAllAndReturns(ids, selected);
  }

  /** Distinct identifiers of known workspaces are no more than there are workspaces. */
  lemma NoMoreThanWorkspaces(s: Snapshot, ids: seq<WorkspaceId>)
    requires DistinctIds(ids) && forall id :: id in ids ==> KnownAmong(s, |s.hosts|, id)
    ensures |ids| <= |s.workspaces|
  {
    forall i | 0 <= i < |ids| ensures HasId(s.workspaces, ids[i]) {
      assert KnownAmong(s, |s.hosts|, ids[i]);
    }
    Pigeonhole(ids, s.workspaces);
  }

  ghost predicate HasId(ws: seq<Workspace>, id: WorkspaceId) {
    exists j :: 0 <= j < |ws| && ws[j].id == id
  }

  lemma {:induction false} Pigeonhole(ids: seq<WorkspaceId>, ws: seq<Workspace>)
    requires DistinctIds(ids)
    requires forall i :: 0 <= i < |ids| ==> HasId(ws, ids[i])
    ensures |ids| <= |ws|
    decreases |ws|
  {
    hide HasId, DistinctIds;
    if ids != [] {
      SomeWorkspace(ws, ids[0]);
      var last := ws[|ws| - 1].id;
      var rest := if last in ids then Without(ids, Position(ids, last).value) else ids;
      forall i | 0 <= i < |rest| ensures HasId(ws[..|ws| - 1], rest[i]) {
        assert rest[i] in rest && rest[i] in ids;
        HasIdBefore(ws, rest[i]);
      }
      Pigeonhole(rest, ws[..|ws| - 1]);
    }
  }

  lemma SomeWorkspace(ws: seq<Workspace>, id: WorkspaceId)
    requires HasId(ws, id)
    ensures ws != []
  {
  }

  lemma HasIdBefore(ws: seq<Workspace>, id: WorkspaceId)
    requires ws != [] && HasId(ws, id) && id != ws[|ws| - 1].id
    ensures HasId(ws[..|ws| - 1], id)
  {
    var j :| 0 <= j < |ws| && ws[j].id == id;
    assert ws[..|ws| - 1][j].id == id;
  }

  function Without(ids: seq<WorkspaceId>, p: nat): (rest: seq<WorkspaceId>)
    requires p < |ids|
    ensures |rest| == |ids| - 1
    ensures DistinctIds(ids) ==> DistinctIds(rest) && ids[p] !in rest
    ensures forall id :: id in rest ==> id in ids
  {
    ids[..p] + ids[p + 1..]
  }
}

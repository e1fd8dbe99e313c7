/** Which status a group of workspaces shows: the most urgent one, however the group is divided. */
module StatusRollup {

  datatype DisplayStatus = Idle | Unknown | Ready | Working | Done | NeedsInput | Exited

  function Priority(s: DisplayStatus): nat {
    match s
    case NeedsInput => 6
    case Done => 5
    case Working => 4
    case Ready => 3
    case Unknown => 2
    case Exited => 1
    case Idle => 0
  }

  /** The last of the statuses with the greatest priority. */
  function Best(s: seq<DisplayStatus>): DisplayStatus
    requires s != []
  {
    var last := s[|s| - 1];
    if |s| == 1 || Priority(last) >= Priority(Best(s[..|s| - 1])) then last else Best(s[..|s| - 1])
  }

  function Rollup(s: seq<DisplayStatus>): DisplayStatus {
    if s == [] then Idle else Best(s)
  }

  lemma {:induction false} RollupIsMaximum(s: seq<DisplayStatus>)
    ensures s == [] ==> Rollup(s) == Idle
    ensures s != [] ==> Rollup(s) in s
    ensures forall x :: x in s ==> Priority(x) <= Priority(Rollup(s))
  {
    if |s| > 1 {
      RollupIsMaximum(s[..|s| - 1]);
      assert forall x :: x in s ==> x in s[..|s| - 1] || x == s[|s| - 1];
    }
  }

  /** What wants attention most comes first; a finished turn before a running one, and no run at all last. */
  const URGENCY := [NeedsInput, Done, Working, Ready, Unknown, Exited, Idle]

  /** A group shows the first of these that one of its members shows. */
  lemma RollupFollowsUrgency(s: seq<DisplayStatus>, k: nat)
    requires k < |URGENCY| && URGENCY[k] in s && forall j :: 0 <= j < k ==> URGENCY[j] !in s
    ensures Rollup(s) == URGENCY[k]
  {
    RollupIsMaximum(s);
    var j := IsSomewhere(Rollup(s));
    assert j >= k;
    EarlierIsMoreUrgent(k, j);
  }

  lemma IsSomewhere(x: DisplayStatus) returns (j: nat)
    ensures j < |URGENCY| && URGENCY[j] == x
  {
    j := 6 - Priority(x);
  }

  lemma EarlierIsMoreUrgent(i: nat, j: nat)
    requires i <= j < |URGENCY|
    ensures Priority(URGENCY[j]) <= Priority(URGENCY[i])
    ensures i < j ==> Priority(URGENCY[j]) < Priority(URGENCY[i])
  {
  }

  lemma PriorityTells(a: DisplayStatus, b: DisplayStatus)
    requires Priority(a) == Priority(b)
    ensures a == b
  {
  }

  /** Only which statuses occur matters, neither their order nor their number. */
  lemma RollupIgnoresOrder(a: seq<DisplayStatus>, b: seq<DisplayStatus>)
    requires forall x :: x in a <==> x in b
    ensures Rollup(a) == Rollup(b)
  {
    RollupIsMaximum(a);
    RollupIsMaximum(b);
    assert b != [] ==> b[0] in b;
    if a != [] {
      assert Rollup(a) in b;
      PriorityTells(Rollup(a), Rollup(b));
    }
  }

  lemma RollupOfTwo(a: seq<DisplayStatus>, b: seq<DisplayStatus>)
    ensures Rollup(a + b) == Rollup([Rollup(a), Rollup(b)])
  {
    RollupIsMaximum(a);
    RollupIsMaximum(b);
    RollupIsMaximum(a + b);
    var two := [Rollup(a), Rollup(b)];
    RollupIsMaximum(two);
    assert two[0] in two && two[1] in two;
    if a + b != [] {
      assert Rollup(a + b) in a || Rollup(a + b) in b;
      assert a != [] ==> Rollup(a) in a + b;
      assert b != [] ==> Rollup(b) in a + b;
      PriorityTells(Rollup(a + b), Rollup(two));
    }
  }

  function Rollups(groups: seq<seq<DisplayStatus>>): (r: seq<DisplayStatus>)
    ensures |r| == |groups| && forall i :: 0 <= i < |r| ==> r[i] == Rollup(groups[i])
  {
    seq(|groups|, i requires 0 <= i < |groups| => Rollup(groups[i]))
  }

  function Concat(groups: seq<seq<DisplayStatus>>): seq<DisplayStatus> {
    if groups == [] then [] else Concat(groups[..|groups| - 1]) + groups[|groups| - 1]
  }

  /** Rolling up the rolled-up groups is rolling up everything at once, for any division into groups. */
  lemma {:induction false} RollupOfRollups(groups: seq<seq<DisplayStatus>>)
    ensures Rollup(Rollups(groups)) == Rollup(Concat(groups))
  {
    if groups != [] {
      var before, last := groups[..|groups| - 1], groups[|groups| - 1];
      RollupOfRollups(before);
      assert Rollups(groups) == Rollups(before) + [Rollup(last)];
      RollupOfTwo(Rollups(before), [Rollup(last)]);
      RollupOfTwo(Concat(before), last);
      assert Rollup([Rollup(last)]) == Rollup(last);
    }
  }
}

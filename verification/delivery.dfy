/**
 Deliveries of the managed plugin: the semantic batch is committed first, the cursor afterwards and
 a gap last, each in a transaction of its own, and the helper may stop before any of them.
 */
module Delivery {
  import opened Prelude
  import opened AgentModel
  import opened Freshness

  /** `appended` are the delivery numbers whose batches reached the event log, oldest first. */
  datatype State = State(row: Option<Row>, appended: seq<int>)

  /**
   `commits` says how far the delivery gets: so many of its transactions are committed. It stops there
   if the helper dies, the next transaction is refused or fails, or the files of the last one cannot be protected.
   */
  datatype Delivery =
    | Heartbeat(at: u64, reported: u64, commits: nat)
    | Handshake(at: u64, commits: nat)
    | Semantic(at: u64, sequence: u64, commits: nat)

  const ALL := 3
  const VERSION := Some(1)

  function Mark(s: State): State {
    s.(row := Step(s.row, MarkGap(OpenCode, VERSION)).0)
  }

  /** One call on the row, and the mark that follows the answer `Gap`, as far as they are committed. */
  function Move(s: State, call: Call, commits: nat): State {
    if commits == 0 then s
    else
      var (row, answer) := Step(s.row, call);
      if answer == Ok(Gap) && commits > 1 then Mark(s.(row := row)) else s.(row := row)
  }

  predicate IsNext(s: State, sequence: int) {
    s.row.Some? && !s.row.value.gap && sequence <= I64_MAX && sequence == s.row.value.cursor + 1
  }

  function Deliver(s: State, d: Delivery): State {
    match d
    case Heartbeat(at, reported, commits) =>
      Move(s, Touch(OpenCode, at, VERSION, reported), commits)
    case Handshake(at, commits) =>
      if commits == 0 then s
      else if s.row.Some? then Mark(s)
      else Move(s, Touch(OpenCode, at, VERSION, 0), commits - 1)
    case Semantic(at, sequence, commits) =>
      if commits == 0 then s
      else if sequence == 0 || !IsNext(s, sequence) then Mark(s)
      else Move(s.(appended := s.appended + [sequence]), Advance(OpenCode, at, VERSION, sequence), commits - 1)
  }

  function After(ds: seq<Delivery>): State {
    if ds == [] then State(Option.None, []) else Deliver(After(ds[..|ds| - 1]), ds[|ds| - 1])
  }

  function Cursor(s: State): int {
    if s.row.Some? then s.row.value.cursor else 0
  }

  /** Numbers that never go down, reach every acknowledged delivery, and go at most one beyond. */
  predicate AtLeastOnceInOrder(appended: seq<int>, cursor: int) {
    && (forall i, j :: 0 <= i < j < |appended| ==> appended[i] <= appended[j])
    && (forall i :: 0 <= i < |appended| ==> 1 <= appended[i] <= cursor + 1)
    && forall n :: 1 <= n <= cursor ==> n in appended
  }

  /**
   Wherever the helper stops, every delivery the cursor acknowledges is in the log,
   and deliveries enter the log in order; only one not yet acknowledged can be repeated.
   */
  lemma {:induction false} LogCoversCursor(ds: seq<Delivery>)
    ensures var s := After(ds);
            && Cursor(s) >= 0
            && (s.row.Some? ==> s.row.value.provider == OpenCode)
            && AtLeastOnceInOrder(s.appended, Cursor(s))
  {
    hide Deliver, AtLeastOnceInOrder;
    if ds == [] {
      NothingInOrder();
    } else {
      var before, d := After(ds[..|ds| - 1]), ds[|ds| - 1];
      LogCoversCursor(ds[..|ds| - 1]);
      DeliveryMovesByOne(before, d);
      AppendingKeepsOrder(before.appended, Cursor(before));
    }
  }

  /** A delivery changes neither log nor cursor, or logs the one after the cursor and may move the cursor to it. */
  lemma DeliveryMovesByOne(s: State, d: Delivery)
    requires s.row.Some? ==> s.row.value.provider == OpenCode && s.row.value.cursor >= 0
    ensures var s' := Deliver(s, d);
            && (s'.row.Some? ==> s'.row.value.provider == OpenCode)
            && ((s'.appended == s.appended && Cursor(s') == Cursor(s))
                || (s'.appended == s.appended + [Cursor(s) + 1] && Cursor(s) <= Cursor(s') <= Cursor(s) + 1))
  {
  }

  lemma NothingInOrder()
    ensures AtLeastOnceInOrder([], 0)
  {
  }

  lemma AppendingKeepsOrder(appended: seq<int>, cursor: int)
    requires AtLeastOnceInOrder(appended, cursor) && cursor >= 0
    ensures AtLeastOnceInOrder(appended + [cursor + 1], cursor)
    ensures AtLeastOnceInOrder(appended + [cursor + 1], cursor + 1)
  {
    var more := appended + [cursor + 1];
    assert more[|appended|] == cursor + 1;
    forall n | 1 <= n <= cursor + 1 ensures n in more {
      assert n <= cursor ==> n in appended;
    }
  }

  /** The delivery reaches the log: the guard of the branch that logs, and a first transaction that is committed. */
  predicate Logs(s: State, d: Delivery) {
    d.Semantic? && IsNext(s, d.sequence) && d.commits >= 1
  }

  /** The helper stops after logging the delivery the cursor was waiting for, before the cursor has moved. */
  predicate Strikes(s: State, d: Delivery) {
    Logs(s, d) && d.commits == 1
  }

  /** How often in a history the helper stops between logging a delivery and moving the cursor. */
  function StrikeCount(ds: seq<Delivery>): nat {
    if ds == [] then 0
    else StrikeCount(ds[..|ds| - 1]) + (if Strikes(After(ds[..|ds| - 1]), ds[|ds| - 1]) then 1 else 0)
  }

  function OneTo(n: int): seq<int> {
    seq(if n < 0 then 0 else n, i => i + 1)
  }

  /** A delivery logs and moves the cursor together, unless the helper stops in between. */
  lemma DeliveryStrikesOrMoves(s: State, d: Delivery)
    requires s.row.Some? ==> s.row.value.provider == OpenCode && s.row.value.cursor >= 0
    ensures var s' := Deliver(s, d);
            && s'.appended == s.appended + (if Logs(s, d) then [Cursor(s) + 1] else [])
            && Cursor(s') == Cursor(s) + (if Logs(s, d) && !Strikes(s, d) then 1 else 0)
    ensures Strikes(s, d) ==> Logs(s, d)
  {
  }

  /** Every strike leaves one entry more than the cursor says, and nothing else does. */
  lemma {:induction false} EveryStrikeIsAnExtraEntry(ds: seq<Delivery>)
    ensures |After(ds).appended| == Cursor(After(ds)) + StrikeCount(ds)
  {
    hide Deliver, Strikes;
    if ds != [] {
      var before := ds[..|ds| - 1];
      EveryStrikeIsAnExtraEntry(before);
      LogCoversCursor(before);
      DeliveryStrikesOrMoves(After(before), ds[|ds| - 1]);
    }
  }

  lemma {:induction false} InOrderWithoutStrikes(ds: seq<Delivery>)
    requires StrikeCount(ds) == 0
    ensures After(ds).appended == OneTo(Cursor(After(ds)))
  {
    hide Deliver, Strikes;
    if ds != [] {
      var before := ds[..|ds| - 1];
      InOrderWithoutStrikes(before);
      LogCoversCursor(before);
      DeliveryStrikesOrMoves(After(before), ds[|ds| - 1]);
    }
  }

  /** The log holds each acknowledged delivery once, in order and nothing else, exactly when there was no strike. */
  lemma ExactlyOnceExactlyWithoutStrikes(ds: seq<Delivery>)
    ensures After(ds).appended == OneTo(Cursor(After(ds))) <==> StrikeCount(ds) == 0
  {
    hide After, StrikeCount;
    LogCoversCursor(ds);
    EveryStrikeIsAnExtraEntry(ds);
    if StrikeCount(ds) == 0 {
      InOrderWithoutStrikes(ds);
    }
  }

  // ---- when the integration is failed closed

  /** A heartbeat with another cursor, a second handshake, or a delivery that is not the next one. */
  predicate Unexpected(s: State, d: Delivery) {
    match d
    case Heartbeat(_, reported, _) => reported != Cursor(s)
    case Handshake(_, _) => s.row.Some?
    case Semantic(_, sequence, _) =>
      s.row.None? || s.row.value.gap || sequence != s.row.value.cursor + 1 || sequence >= 0x8000_0000_0000_0000
  }

  predicate HasGap(s: State) {
    s.row.Some? && s.row.value.gap
  }

  /**
   There is a row from the first heartbeat, completed handshake or delivery on; a gap, from the first
   unexpected one.
   */
  lemma DeliveryMarks(s: State, d: Delivery)
    requires s.row.Some? ==> s.row.value.provider == OpenCode && s.row.value.cursor >= 0
    ensures var s' := Deliver(s, d);
            && (HasGap(s') <==> HasGap(s) || (d.commits >= 1 && Unexpected(s, d)))
            && (s'.row.Some? <==> s.row.Some? || d.commits >= if d.Handshake? then 2 else 1)
            && (d.commits == 0 ==> s' == s)
            && (HasGap(s) ==> s' == s)
  {
  }

  /** Whatever is expected and gets through brings the row up to its time; a mark of a gap changes only the flag. */
  lemma DeliveryRefreshes(s: State, d: Delivery)
    requires s.row.Some? ==> s.row.value.provider == OpenCode && s.row.value.cursor >= 0
    requires !HasGap(s)
    ensures var row' := Deliver(s, d).row;
            if Unexpected(s, d) then
              d.commits >= 1 && s.row.Some? ==> row' == Some(s.row.value.(gap := true))
            else if d.commits >= (if d.Heartbeat? then 1 else 2) then
              && row'.Some? && row'.value.version == VERSION
              && row'.value.lastSeen ==
                 if s.row.Some? then Max(s.row.value.lastSeen, Min(d.at, I64_MAX)) else Min(d.at, I64_MAX)
            else row' == s.row
  {
  }

  /** The gap is recorded exactly if something unexpected got as far as its first transaction. */
  lemma {:induction false} GapTellsHistory(ds: seq<Delivery>)
    ensures HasGap(After(ds)) <==>
              exists i :: 0 <= i < |ds| && ds[i].commits >= 1 && Unexpected(After(ds[..i]), ds[i])
  {
    hide Deliver, Unexpected, HasGap;
    if ds == [] {
      NoGapYet();
    } else {
      var n := |ds| - 1;
      var before := ds[..n];
      GapTellsHistory(before);
      LogCoversCursor(before);
      DeliveryMarks(After(before), ds[n]);
      assert After(ds) == Deliver(After(before), ds[n]);
      forall i | 0 <= i < n ensures before[..i] == ds[..i] && before[i] == ds[i] {
      }
      hide After;
      if HasGap(After(before)) {
        var i :| 0 <= i < n && before[i].commits >= 1 && Unexpected(After(before[..i]), before[i]);
        assert before[..i] == ds[..i];
        assert Unexpected(After(ds[..i]), ds[i]);
      }
      if i :| 0 <= i < |ds| && ds[i].commits >= 1 && Unexpected(After(ds[..i]), ds[i]) && i < n {
        assert before[..i] == ds[..i];
        assert Unexpected(After(before[..i]), before[i]);
      }
    }
  }

  lemma NoGapYet()
    ensures !HasGap(After([]))
  {
  }

  /** Some delivery reaches the log after a strike. */
  predicate LogsAfterStrike(ds: seq<Delivery>) {
    ds != [] &&
    var before := ds[..|ds| - 1];
    LogsAfterStrike(before) || (StrikeCount(before) > 0 && Logs(After(before), ds[|ds| - 1]))
  }

  predicate Distinct(appended: seq<int>) {
    forall i, j :: 0 <= i < j < |appended| ==> appended[i] != appended[j]
  }

  /** Nothing is logged twice exactly when nothing is logged after a strike. */
  lemma {:induction false} NothingTwiceExactlyWithoutRetry(ds: seq<Delivery>)
    ensures Distinct(After(ds).appended) <==> !LogsAfterStrike(ds)
  {
    hide Deliver, Logs, Strikes, AtLeastOnceInOrder, Distinct;
    if ds == [] {
      DistinctEmpty();
    } else {
      var before := ds[..|ds| - 1];
      NothingTwiceExactlyWithoutRetry(before);
      LogCoversCursor(before);
      DeliveryStrikesOrMoves(After(before), ds[|ds| - 1]);
      NextIsNewExactlyWithoutStrikes(before);
      DistinctSnoc(After(before).appended, Cursor(After(before)) + 1);
      assert After(ds).appended
        == After(before).appended + (if Logs(After(before), ds[|ds| - 1]) then [Cursor(After(before)) + 1] else []);
      assert After(before).appended + [] == After(before).appended;
    }
  }

  lemma DistinctEmpty()
    ensures Distinct([])
  {
  }

  lemma DistinctSnoc(appended: seq<int>, n: int)
    ensures Distinct(appended + [n]) <==> Distinct(appended) && n !in appended
  {
    var more := appended + [n];
    assert more[..|appended|] == appended && more[|appended|] == n;
    if Distinct(more) {
      forall i, j | 0 <= i < j < |appended| ensures appended[i] != appended[j] {
        assert more[i] != more[j];
      }
      forall i | 0 <= i < |appended| ensures appended[i] != n {
        assert more[i] != more[|appended|];
      }
    }
  }

  /** While nothing is in the log twice, the delivery the cursor waits for is in it exactly after a strike. */
  lemma NextIsNewExactlyWithoutStrikes(ds: seq<Delivery>)
    ensures var s := After(ds);
            Distinct(s.appended) ==> (Cursor(s) + 1 in s.appended <==> StrikeCount(ds) > 0)
  {
    hide After, StrikeCount;
    var s := After(ds);
    LogCoversCursor(ds);
    EveryStrikeIsAnExtraEntry(ds);
    if Distinct(s.appended) {
      if StrikeCount(ds) == 0 {
        InOrderWithoutStrikes(ds);
      } else {
        RisesByOne(s.appended, Cursor(s));
        assert s.appended[Cursor(s)] == Cursor(s) + 1;
      }
    }
  }

  lemma RisesByOne(appended: seq<int>, i: nat)
    requires i < |appended| && Distinct(appended)
    requires forall i, j :: 0 <= i < j < |appended| ==> appended[i] <= appended[j]
    requires forall i :: 0 <= i < |appended| ==> 1 <= appended[i]
    ensures appended[i] >= i + 1
  {
    if i > 0 {
      RisesByOne(appended, i - 1);
      assert appended[i - 1] != appended[i];
    }
  }

  // ---- a history in which a delivery is logged twice

  const GREETED: seq<Delivery> := [Handshake(0, ALL)]
  const STRUCK: seq<Delivery> := [Handshake(0, ALL), Semantic(0, 1, 1)]
  const REPEATED: seq<Delivery> := [Handshake(0, ALL), Semantic(0, 1, 1), Semantic(0, 1, ALL)]

  lemma AfterGreeting()
    ensures After(GREETED) == State(Some(Row(OpenCode, 0, VERSION, 0, false)), [])
  {
    assert GREETED[..0] == [];
    assert After(GREETED) == Deliver(After([]), GREETED[0]);
  }

  lemma AfterStrike()
    ensures After(STRUCK) == State(Some(Row(OpenCode, 0, VERSION, 0, false)), [1])
  {
    hide After;
    AfterGreeting();
    assert STRUCK[..1] == GREETED;
    AfterLast(STRUCK);
  }

  lemma AfterLast(ds: seq<Delivery>)
    requires ds != []
    ensures After(ds) == Deliver(After(ds[..|ds| - 1]), ds[|ds| - 1])
  {
  }

  /** Stopping between the two transactions makes the plugin's next try a second entry, and no gap is noticed. */
  lemma RetryRepeatsDelivery()
    ensures After(REPEATED) == State(Some(Row(OpenCode, 0, VERSION, 1, false)), [1, 1])
  {
    hide After;
    AfterStrike();
    assert REPEATED[..2] == STRUCK;
    AfterLast(REPEATED);
  }
}

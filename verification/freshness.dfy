/**
 The delivery-continuity cursor: one row per run, touched by heartbeats, advanced by
 deliveries and failed closed for ever by anything missing, duplicated or out of order.
 */
module Freshness {
  import opened Prelude
  import opened AgentModel

  datatype Row = Row(provider: Provider, lastSeen: int, version: Option<nat>, cursor: int, gap: bool)

  datatype Continuity = Continuous | Gap

  datatype Error = WrongProvider(expected: Provider, received: Provider) | CorruptData

  datatype Call =
    | Touch(provider: Provider, at: u64, version: Option<nat>, reported: u64)
    | Advance(provider: Provider, at: u64, version: Option<nat>, sequence: u64)
    | MarkGap(provider: Provider, version: Option<nat>)

  function Clamp(at: u64): int {
    Min(at, I64_MAX)
  }

  function Coalesce(a: Option<nat>, b: Option<nat>): Option<nat> {
    if a.Some? then a else b
  }

  /** One call on one run's row: the row afterwards and the answer. */
  function Step(row: Option<Row>, call: Call): (Option<Row>, Result<Continuity, Error>) {
    if row.Some? && row.value.provider != call.provider then
      (row, Err(WrongProvider(row.value.provider, call.provider)))
    else if row.Some? && !call.MarkGap? && row.value.cursor < 0 then
      (row, Err(CorruptData))
    else
      match call
      case Touch(provider, at, version, reported) =>
        if row.None? then
          var continuous := reported == 0;
          (Some(Row(provider, Clamp(at), version, 0, !continuous)), Ok(if continuous then Continuous else Gap))
        else if !row.value.gap && reported == row.value.cursor then
          (Some(row.value.(lastSeen := Max(row.value.lastSeen, Clamp(at)),
                           version := Coalesce(version, row.value.version))), Ok(Continuous))
        else
          (Some(row.value.(gap := true)), Ok(Gap))
      case Advance(_, at, version, sequence) =>
        if row.None? then (row, Ok(Gap))
        else if sequence <= I64_MAX && !row.value.gap && sequence == row.value.cursor + 1 then
          (Some(row.value.(lastSeen := Max(row.value.lastSeen, Clamp(at)),
                           version := Coalesce(version, row.value.version), cursor := sequence)), Ok(Continuous))
        else
          (Some(row.value.(gap := true)), Ok(Gap))
      case MarkGap(provider, version) =>
        if row.None? then (Some(Row(provider, 0, version, 0, true)), Ok(Gap))
        else (Some(row.value.(gap := true)), Ok(Gap))
  }

  /** The table, one transaction per method. */
  class FreshnessTable {
    var rows: map<RunId, Row>

    constructor ()
      ensures rows == map[]
    {
      rows := map[];
    }

    function Of(run: RunId): Option<Row>
      reads this
    {
      if run in rows then Some(rows[run]) else Option.None
    }

    /** Only this run's row may differ, and it is the stepped one. */
    twostate predicate Stepped(run: RunId, call: Call)
      reads this
    {
      && Of(run) == Step(old(Of(run)), call).0
      && forall r :: r != run ==> Of(r) == old(Of(r))
    }

    method TouchIntegration(run: RunId, provider: Provider, at: u64, version: Option<nat>, reported: u64)
      returns (r: Result<Continuity, Error>)
      modifies this
      ensures Stepped(run, Touch(provider, at, version, reported))
      ensures r == Step(old(Of(run)), Touch(provider, at, version, reported)).1
    {
      var cursor, gap := 0, false;
      if run in rows {
        if rows[run].provider != provider {
          return Err(WrongProvider(rows[run].provider, provider));
        }
        if rows[run].cursor < 0 {
          return Err(CorruptData);
        }
        cursor, gap := rows[run].cursor, rows[run].gap;
      }
      var continuous := !gap && reported == cursor;
      if run !in rows {
        rows := rows[run := Row(provider, Clamp(at), version, 0, !continuous)];
      } else if continuous {
        rows := rows[run := rows[run].(lastSeen := Max(rows[run].lastSeen, Clamp(at)),
                                       version := Coalesce(version, rows[run].version))];
      } else {
        rows := rows[run := rows[run].(gap := true)];
      }
      r := Ok(if continuous then Continuous else Gap);
    }

    method AdvanceIntegration(run: RunId, provider: Provider, at: u64, version: Option<nat>, sequence: u64)
      returns (r: Result<Continuity, Error>)
      modifies this
      ensures Stepped(run, Advance(provider, at, version, sequence))
      ensures r == Step(old(Of(run)), Advance(provider, at, version, sequence)).1
    {
      if run !in rows {
        return Ok(Gap);
      }
      var row := rows[run];
      if row.provider != provider {
        return Err(WrongProvider(row.provider, provider));
      }
      if row.cursor < 0 {
        return Err(CorruptData);
      }
      var continuous := sequence <= I64_MAX && !row.gap && sequence == Min(row.cursor + 1, U64_MAX);
      if continuous {
        rows := rows[run := row.(lastSeen := Max(row.lastSeen, Clamp(at)), version := Coalesce(version, row.version),
                                 cursor := sequence)];
      } else {
        rows := rows[run := row.(gap := true)];
      }
      r := Ok(if continuous then Continuous else Gap);
    }

    method MarkIntegrationGap(run: RunId, provider: Provider, version: Option<nat>)
      returns (r: Result<Continuity, Error>)
      modifies this
      ensures Stepped(run, MarkGap(provider, version))
      ensures r == Step(old(Of(run)), MarkGap(provider, version)).1
    {
      if run in rows && rows[run].provider != provider {
        return Err(WrongProvider(rows[run].provider, provider));
      }
      if run in rows {
        rows := rows[run := rows[run].(gap := true)];
      } else {
        rows := rows[run := Row(provider, 0, version, 0, true)];
      }
      r := Ok(Gap);
    }
  }

  // ---- the cursor against its whole history

  /** The row after a whole history of calls on one run. */
  function RowAfter(h: seq<Call>): Option<Row> {
    if h == [] then Option.None else Step(RowAfter(h[..|h| - 1]), h[|h| - 1]).0
  }

  function AnswerTo(h: seq<Call>, i: nat): Result<Continuity, Error>
    requires i < |h|
  {
    Step(RowAfter(h[..i]), h[i]).1
  }

  /**
   The calls that matter: from the first one that is not an advance, those of its provider.
   */
  function Relevant(h: seq<Call>): seq<Call> {
    if h == [] then []
    else
      var before, last := Relevant(h[..|h| - 1]), h[|h| - 1];
      if before == [] then (if last.Advance? then [] else [last])
      else if last.provider == before[0].provider then before + [last]
      else before
  }

  function Advances(calls: seq<Call>): nat {
    if calls == [] then 0
    else Advances(calls[..|calls| - 1]) + (if calls[|calls| - 1].Advance? then 1 else 0)
  }

  /** A heartbeat reports how many deliveries there have been; a delivery carries the next number. */
  predicate Expected(delivered: nat, call: Call) {
    match call
    case Touch(_, _, _, reported) => reported == delivered
    case Advance(_, _, _, sequence) => sequence == delivered + 1 && sequence <= I64_MAX
    case MarkGap(_, _) => false
  }

  predicate InOrder(calls: seq<Call>) {
    forall i :: 0 <= i < |calls| ==> Expected(Advances(calls[..i]), calls[i])
  }

  function LatestSeen(calls: seq<Call>): int {
    if calls == [] || calls[|calls| - 1].MarkGap? then 0
    else Max(LatestSeen(calls[..|calls| - 1]), Clamp(calls[|calls| - 1].at))
  }

  function LatestVersion(calls: seq<Call>): Option<nat> {
    if calls == [] then Option.None
    else if calls[|calls| - 1].version.Some? then calls[|calls| - 1].version
    else LatestVersion(calls[..|calls| - 1])
  }

  lemma InOrderSnoc(calls: seq<Call>, call: Call)
    ensures InOrder([])
    ensures InOrder(calls + [call]) <==> InOrder(calls) && Expected(Advances(calls), call)
  {
    var all := calls + [call];
    assert all[..|calls|] == calls;
    forall i | 0 <= i < |calls| ensures all[..i] == calls[..i] {
    }
    if InOrder(all) {
      forall i | 0 <= i < |calls| ensures Expected(Advances(calls[..i]), calls[i]) {
        assert Expected(Advances(all[..i]), all[i]);
      }
      assert Expected(Advances(all[..|calls|]), all[|calls|]);
    }
  }

  lemma {:induction false} RelevantStartsWithoutAdvance(h: seq<Call>)
    ensures Relevant(h) != [] ==> !Relevant(h)[0].Advance?
  {
    if h != [] {
      RelevantStartsWithoutAdvance(h[..|h| - 1]);
    }
  }

  /**
   The row says exactly what the history was: it exists once a call other than an advance
   was made; its gap flag is set if and only if some relevant call was not the expected
   one; and without a gap its cursor is the number of deliveries.
   */
  lemma {:induction false} RowTellsHistory(h: seq<Call>)
    ensures RowAfter(h).None? <==> Relevant(h) == []
    ensures RowAfter(h).Some? ==>
              var row := RowAfter(h).value;
              && row.provider == Relevant(h)[0].provider
              && row.cursor >= 0
              && (row.gap <==> !InOrder(Relevant(h)))
              && (!row.gap ==> row.cursor == Advances(Relevant(h)) && row.lastSeen == LatestSeen(Relevant(h))
                               && row.version == LatestVersion(Relevant(h)))
  {
    hide InOrder;
    RelevantStartsWithoutAdvance(h);
    if h != [] {
      var before, call := h[..|h| - 1], h[|h| - 1];
      RowTellsHistory(before);
      RelevantStartsWithoutAdvance(before);
      InOrderSnoc(Relevant(before), call);
      InOrderSnoc([], call);
      assert [] + [call] == [call];
      assert (Relevant(before) + [call])[..|Relevant(before)|] == Relevant(before);
      assert [call][..0] == [];
    }
  }

  /** Call `i` is about the row's own provider, and there is a row to call. */
  predicate Concerns(h: seq<Call>, i: nat)
    requires i < |h|
  {
    var before := Relevant(h[..i]);
    if before == [] then !h[i].Advance? else h[i].provider == before[0].provider
  }

  /**
   Every answer, by the history up to the call: continuous exactly if the call concerns the row and nothing was out
   of order so far, itself included; refused exactly if it names another provider than the row's; otherwise a gap.
   */
  lemma AnswersTellHistory(h: seq<Call>, i: nat)
    requires i < |h|
    ensures AnswerTo(h, i) == Ok(Continuous) <==> Concerns(h, i) && InOrder(Relevant(h[..i + 1]))
    ensures AnswerTo(h, i).Err? <==> Relevant(h[..i]) != [] && h[i].provider != Relevant(h[..i])[0].provider
    ensures AnswerTo(h, i).Err? ==> AnswerTo(h, i) == Err(WrongProvider(Relevant(h[..i])[0].provider, h[i].provider))
  {
    hide InOrder;
    var before, call := h[..i], h[i];
    RowTellsHistory(before);
    InOrderSnoc(Relevant(before), call);
    InOrderSnoc([], call);
    assert h[..i + 1][..i] == before && h[..i + 1][i] == call;
    assert [] + [call] == [call];
  }

  /**
   A call that is not continuous leaves an existing row as it is but for the gap flag, which is set unless it
   is refused.
   */
  lemma GapsOnlyMark(h: seq<Call>, i: nat)
    requires i < |h| && RowAfter(h[..i]).Some? && AnswerTo(h, i) != Ok(Continuous)
    ensures RowAfter(h[..i + 1]) ==
            Some(RowAfter(h[..i]).value.(gap := RowAfter(h[..i]).value.gap || AnswerTo(h, i).Ok?))
  {
    RowTellsHistory(h[..i]);
    assert h[..i + 1][..i] == h[..i] && h[..i + 1][i] == h[i];
  }

  /** The call that creates the row. */
  lemma FirstRow(h: seq<Call>, i: nat)
    requires i < |h| && RowAfter(h[..i]).None?
    ensures RowAfter(h[..i + 1]) == match h[i]
              case Touch(provider, at, version, reported) =>
                Some(Row(provider, Min(at, I64_MAX), version, 0, reported != 0))
              case Advance(_, _, _, _) => Option.None
              case MarkGap(provider, version) => Some(Row(provider, 0, version, 0, true))
  {
    assert h[..i + 1][..i] == h[..i] && h[..i + 1][i] == h[i];
  }

  /** The numbers of the deliveries that were answered as continuous. */
  function Deliveries(h: seq<Call>): seq<int> {
    if h == [] then []
    else
      var n := |h| - 1;
      Deliveries(h[..n]) + (if h[n].Advance? && AnswerTo(h, n) == Ok(Continuous) then [h[n].sequence] else [])
  }

  /** Whatever is called in whatever order, the accepted deliveries are 1, 2, ..., cursor. */
  lemma {:induction false} DeliveriesAreOneToCursor(h: seq<Call>)
    ensures |Deliveries(h)| == if RowAfter(h).Some? then Max(RowAfter(h).value.cursor, 0) else 0
    ensures forall i :: 0 <= i < |Deliveries(h)| ==> Deliveries(h)[i] == i + 1
    ensures RowAfter(h).Some? ==> RowAfter(h).value.cursor >= 0
  {
    if h != [] {
      DeliveriesAreOneToCursor(h[..|h| - 1]);
    }
  }

  /** Once a gap is recorded, no call changes anything in the row any more. */
  lemma {:induction false} GapIsForever(h: seq<Call>, more: seq<Call>)
    requires RowAfter(h).Some? && RowAfter(h).value.gap
    ensures RowAfter(h + more) == RowAfter(h)
    ensures forall i :: |h| <= i < |h + more| ==> AnswerTo(h + more, i) != Ok(Continuous)
    decreases |more|
  {
    var all := h + more;
    if more == [] {
      assert all == h;
    } else {
      var n := |more| - 1;
      GapIsForever(h, more[..n]);
      assert all[..|all| - 1] == h + more[..n];
      forall i | |h| <= i < |all| ensures AnswerTo(all, i) != Ok(Continuous) {
        if i < |all| - 1 {
          assert all[..i] == (h + more[..n])[..i];
          assert AnswerTo(h + more[..n], i) != Ok(Continuous);
        }
      }
    }
  }

  // ---- reading back

  /** The range checks a reader makes on a stored row. */
  predicate Readable(row: Row) {
    row.lastSeen >= 0 && row.cursor >= 0 && (row.version.Some? ==> row.version.value < 0x1_0000_0000)
  }

  /** No history of calls with 32-bit versions ever stores a row that a reader rejects. */
  lemma {:induction false} RowsStayReadable(h: seq<Call>)
    requires forall i :: 0 <= i < |h| && h[i].version.Some? ==> h[i].version.value < 0x1_0000_0000
    ensures RowAfter(h).Some? ==> Readable(RowAfter(h).value)
  {
    if h != [] {
      RowsStayReadable(h[..|h| - 1]);
      assert h[|h| - 1].version.Some? ==> h[|h| - 1].version.value < 0x1_0000_0000;
    }
  }
}

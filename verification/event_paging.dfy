/** Ordered, limited replay of a run's committed updates, and paging through a growing log. */
module EventPaging {
  import opened Prelude
  import opened AgentModel
  import opened Tracker
  import opened EventLog

  const MAX_FOLLOW_LIMIT := 1_000

  // ---- the query: rows of one run above a sequence, in order, up to a limit

  function SequencesAfter(db: Db, run: RunId, after: int): (s: set<int>)
    ensures forall k :: k in s <==> (run, k) in db.events && k > after
  {
    set key | key in db.events && key.0 == run && key.1 > after :: key.1
  }

  lemma {:induction false} LeastExists(s: set<int>)
    requires |s| > 0
    ensures exists m :: m in s && forall x :: x in s ==> m <= x
  {
    var x := Pick(s);
    if |s| > 1 {
      LeastExists(s - {x});
      var m :| m in s - {x} && forall y :: y in s - {x} ==> m <= y;
      var least := Min(x, m);
      assert forall y :: y in s ==> y == x || y in s - {x};
      assert least in s && forall y :: y in s ==> least <= y;
    } else {
      assert s - {x} == {} && forall y :: y in s && y != x ==> y in s - {x};
    }
  }

  function Least(s: set<int>): (m: int)
    requires |s| > 0
    ensures m in s && forall x :: x in s ==> m <= x
  {
    LeastExists(s);
    var m :| m in s && forall x :: x in s ==> m <= x;
    m
  }

  function RowsAfter(db: Db, run: RunId, after: int, limit: nat): (rows: seq<(int, Update)>)
    ensures |rows| <= limit
    decreases limit
  {
    if limit == 0 || |SequencesAfter(db, run, after)| == 0 then []
    else
      var k := Least(SequencesAfter(db, run, after));
      [(k, db.events[(run, k)])] + RowsAfter(db, run, k, limit - 1)
  }

  /** The re-checks made on every row before it is replayed. */
  predicate RowIsSound(run: RunId, row: (int, Update)) {
    && row.0 >= 1 && row.1.event.sequence == row.0 && row.1.event.run == run
    && row.1.snapshot.run == run && row.1.event.provider == row.1.snapshot.provider
    && row.1.snapshot.lastSequence == Some(row.1.event.sequence)
  }

  function FollowAfter(db: Db, run: RunId, sequence: u64, limit: nat): Result<seq<Update>, Error> {
    if limit == 0 || sequence > I64_MAX then Ok([])
    else
      var rows := RowsAfter(db, run, sequence, Min(limit, MAX_FOLLOW_LIMIT));
      if forall i :: 0 <= i < |rows| ==> RowIsSound(run, rows[i])
      then Ok(seq(|rows|, i requires 0 <= i < |rows| => rows[i].1))
      else Err(CorruptData)
  }

  /** Whatever the tables hold, nothing is replayed that is not a sound row of the run after the cursor. */
  lemma OnlySoundRowsAreReplayed(db: Db, run: RunId, sequence: u64, limit: nat, i: nat)
    requires FollowAfter(db, run, sequence, limit).Ok? && i < |FollowAfter(db, run, sequence, limit).value|
    ensures |FollowAfter(db, run, sequence, limit).value| <= Min(limit, MAX_FOLLOW_LIMIT)
    ensures var u := FollowAfter(db, run, sequence, limit).value[i];
            && (run, u.event.sequence as int) in db.events && db.events[(run, u.event.sequence as int)] == u
            && u.event.sequence > sequence && u.event.sequence >= 1
            && u.event.run == run == u.snapshot.run && u.event.provider == u.snapshot.provider
            && u.snapshot.lastSequence == Some(u.event.sequence)
  {
    var rows := RowsAfter(db, run, sequence, Min(limit, MAX_FOLLOW_LIMIT));
    assert RowIsSound(run, rows[i]);
    RowsAreStored(db, run, sequence, Min(limit, MAX_FOLLOW_LIMIT), i);
  }

  lemma {:induction false} RowsAreStored(db: Db, run: RunId, after: int, limit: nat, i: nat)
    requires i < |RowsAfter(db, run, after, limit)|
    ensures var row := RowsAfter(db, run, after, limit)[i];
            row.0 > after && (run, row.0) in db.events && db.events[(run, row.0)] == row.1
    decreases limit
  {
    hide SequencesAfter;
    if i > 0 {
      RowsAreStored(db, run, Least(SequencesAfter(db, run, after)), limit - 1, i - 1);
    }
  }

  lemma NextSequence(db: Db, run: RunId, after: nat)
    requires Consistent(db)
    ensures after >= LogLength(db, run) <==> |SequencesAfter(db, run, after)| == 0
    ensures after < LogLength(db, run) ==>
              && Least(SequencesAfter(db, run, after)) == after + 1
              && (run, after + 1) in db.events
              && Log(db, run)[after] == db.events[(run, after + 1)]
              && RowIsSound(run, (after + 1, db.events[(run, after + 1)]))
  {
    if run in db.runs {
      assert RunConsistent(db, run);
      if after < LogLength(db, run) {
        assert RowConsistent(db, run, after + 1);
        assert after + 1 in SequencesAfter(db, run, after);
      }
    }
  }

  /** In a consistent log the ordered query returns the next rows, one after another. */
  lemma {:induction false} RowsAfterAreNext(db: Db, run: RunId, after: nat, limit: nat)
    requires Consistent(db)
    ensures var rows := RowsAfter(db, run, after, limit);
            && |rows| == (if after >= LogLength(db, run) then 0 else Min(limit, LogLength(db, run) - after))
            && forall i :: 0 <= i < |rows| ==>
                 rows[i] == (after + 1 + i, Log(db, run)[after + i]) && RowIsSound(run, rows[i])
    decreases limit
  {
    hide Consistent, LogLength, Log, RowIsSound, SequencesAfter;
    NextSequence(db, run, after);
    if limit > 0 && after < LogLength(db, run) {
      RowsAfterAreNext(db, run, after + 1, limit - 1);
      var rest := RowsAfter(db, run, after + 1, limit - 1);
      forall i | 0 <= i < |rest| + 1
        ensures RowsAfter(db, run, after, limit)[i] == (after + 1 + i, Log(db, run)[after + i])
        ensures RowIsSound(run, RowsAfter(db, run, after, limit)[i])
      {
        if i > 0 {
          assert RowsAfter(db, run, after, limit)[i] == rest[i - 1];
        }
      }
    }
  }

  /** One page is exactly the slice of the log after the cursor. */
  lemma PageIsSlice(db: Db, run: RunId, sequence: u64, limit: nat)
    requires Consistent(db) && sequence <= I64_MAX
    ensures var log, page := Log(db, run), FollowAfter(db, run, sequence, limit);
            page == Ok(if sequence >= |log| then []
              else log[sequence..sequence + Min(Min(limit, MAX_FOLLOW_LIMIT), |log| - sequence)])
  {
    hide Consistent, RowIsSound, RowsAfter, LogLength;
    var log, most := Log(db, run), Min(limit, MAX_FOLLOW_LIMIT);
    var slice := if sequence >= |log| then [] else log[sequence..sequence + Min(most, |log| - sequence)];
    if limit == 0 {
      assert slice == [];
    } else {
      RowsAfterAreNext(db, run, sequence, most);
      var rows := RowsAfter(db, run, sequence, most);
      var page := seq(|rows|, i requires 0 <= i < |rows| => rows[i].1);
      assert FollowAfter(db, run, sequence, limit) == Ok(page);
      assert page == slice;
    }
  }

  // ---- a reader that pages with the last sequence it was given

  function NextCursor(cursor: u64, page: seq<Update>): u64 {
    if page == [] then cursor else page[|page| - 1].event.sequence
  }

  /** One request per state: the log may grow between requests. */
  function ReadPages(dbs: seq<Db>, limits: seq<nat>, run: RunId, cursor: u64): seq<Update>
    requires |limits| == |dbs|
    decreases |dbs|
  {
    if dbs == [] then []
    else
      match FollowAfter(dbs[0], run, cursor, limits[0])
      case Err(_) => []
      case Ok(page) => page + ReadPages(dbs[1..], limits[1..], run, NextCursor(cursor, page))
  }

  ghost predicate Growing(dbs: seq<Db>, run: RunId) {
    && (forall i :: 0 <= i < |dbs| ==> Consistent(dbs[i]) && LogLength(dbs[i], run) <= I64_MAX)
    && forall i, j :: 0 <= i <= j < |dbs| ==> Log(dbs[i], run) <= Log(dbs[j], run)
  }

  lemma EventsAreNumbered(db: Db, run: RunId, i: nat)
    requires Consistent(db) && i < LogLength(db, run)
    ensures Log(db, run)[i].event.sequence == i + 1
  {
    assert RunConsistent(db, run);
    assert RowConsistent(db, run, i + 1);
  }

  /** A page moves the cursor over exactly what it returned, and never stands still before the end. */
  lemma PageMovesCursor(db: Db, run: RunId, cursor: u64, limit: nat)
    requires Consistent(db) && cursor <= LogLength(db, run) <= I64_MAX
    ensures FollowAfter(db, run, cursor, limit).Ok?
    ensures var page := FollowAfter(db, run, cursor, limit).value;
            var next := NextCursor(cursor, page);
            && cursor <= next <= LogLength(db, run) && page == Log(db, run)[cursor..next]
            && (limit >= 1 && cursor < LogLength(db, run) ==> cursor < next)
  {
    hide Consistent, LogLength, FollowAfter;
    PageIsSlice(db, run, cursor, limit);
    var page := FollowAfter(db, run, cursor, limit).value;
    if page != [] {
      EventsAreNumbered(db, run, cursor + |page| - 1);
    }
  }

  /** Every page together is a gap-free, duplicate-free stretch of the log, from the cursor on. */
  lemma {:induction false} PagesAreContiguous(dbs: seq<Db>, limits: seq<nat>, run: RunId, cursor: u64)
    requires |limits| == |dbs| > 0 && Growing(dbs, run) && cursor <= LogLength(dbs[0], run)
    ensures var last := Log(dbs[|dbs| - 1], run);
            var read := ReadPages(dbs, limits, run, cursor);
            cursor + |read| <= |last| && read == last[cursor..cursor + |read|]
    decreases |dbs|
  {
    hide Consistent, LogLength, FollowAfter, NextCursor, Log;
    PageMovesCursor(dbs[0], run, cursor, limits[0]);
    var last := Log(dbs[|dbs| - 1], run);
    var page := FollowAfter(dbs[0], run, cursor, limits[0]).value;
    var next := NextCursor(cursor, page);
    assert Log(dbs[0], run) <= last;
    assert page == last[cursor..next];
    var rest := ReadPages(dbs[1..], limits[1..], run, next);
    if |dbs| > 1 {
      assert Log(dbs[0], run) <= Log(dbs[1], run);
      PagesAreContiguous(dbs[1..], limits[1..], run, next);
    }
    assert last[cursor..next] + last[next..next + |rest|] == last[cursor..next + |rest|];
  }

  /** On a fixed log, as many requests as there are updates left read all of them. */
  lemma {:induction false} PagesReachTheEnd(db: Db, limits: seq<nat>, run: RunId, cursor: u64)
    requires Consistent(db) && cursor <= LogLength(db, run) <= I64_MAX
    requires forall i :: 0 <= i < |limits| ==> limits[i] >= 1
    requires |limits| >= LogLength(db, run) - cursor
    ensures ReadPages(seq(|limits|, _ => db), limits, run, cursor) == Log(db, run)[cursor..]
    decreases |limits|
  {
    hide Consistent, LogLength, FollowAfter, NextCursor, Log;
    if limits != [] {
      var log := Log(db, run);
      PageMovesCursor(db, run, cursor, limits[0]);
      var next := NextCursor(cursor, FollowAfter(db, run, cursor, limits[0]).value);
      PagesReachTheEnd(db, limits[1..], run, next);
      assert seq(|limits|, _ => db)[1..] == seq(|limits[1..]|, _ => db);
      assert log[cursor..next] + log[next..] == log[cursor..];
    }
  }
}

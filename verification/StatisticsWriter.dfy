/** The per-second statistics report: counts are kept per second and written out in closed seconds. */
module StatisticsWriter {
  import opened Common

  datatype Column =
    | Planned | Scheduled | Enqueued | Started | StartedImmediate | StartedFromBacklog
    | Completed | Failed | TimedOut | DroppedCapacity | DroppedBacklogFull | BacklogExpired

  /** A row of the report; its counts are a bag of column names. */
  datatype Row = Row(second: int, counts: multiset<Column>)

  datatype State = State(
    counts: map<int, multiset<Column>>,
    first: int,
    lastFlushed: int,
    latestSeen: Option<int>,
    rows: seq<Row>)

  function Reset(first: int): State {
    State(map[], first, first - 1, None, [])
  }

  function Retained(s: State, second: int): multiset<Column> {
    if second in s.counts then s.counts[second] else multiset{}
  }

  function Plus(row: multiset<Column>, column: Column, count: nat): multiset<Column> {
    row[column := row[column] + count]
  }

  function Recorded(s: State, second: int, column: Column, count: nat): State {
    s.(counts := s.counts[second := Plus(Retained(s, second), column, count)],
       latestSeen := if s.latestSeen.None? || second > s.latestSeen.value then Some(second) else s.latestSeen)
  }

  /** The second up to which a flush writes; None when it writes nothing. */
  function ClosedThrough(s: State, final: bool, now: int): Option<int> {
    var closed := if final then s.latestSeen else if now - 1 < s.first then None else Some(now - 1);
    if closed.Some? && closed.value > s.lastFlushed then closed else None
  }

  function Flushed(s: State, final: bool, now: int): State {
    var closed := ClosedThrough(s, final, now);
    if closed.None? then s
    else
      var n := closed.value - s.lastFlushed;
      var first := s.lastFlushed + 1;
      s.(rows := s.rows + seq(n, i requires 0 <= i < n => Row(first + i, Retained(s, first + i))),
         counts := map k | k in s.counts && !(s.lastFlushed < k <= closed.value) :: s.counts[k],
         lastFlushed := closed.value)
  }

  class StatisticsReportWriter {
    var counts: map<int, multiset<Column>>
    var firstSecond: int
    var lastFlushedSecond: int
    var latestSeenSecond: Option<int>
    // The lines of the report file after its header.
    var rows: seq<Row>

    ghost function View(): State
      reads this
    {
      State(counts, firstSecond, lastFlushedSecond, latestSeenSecond, rows)
    }

    constructor (first: int)
      ensures View() == Reset(first)
    {
      counts, rows := map[], [];
      firstSecond, lastFlushedSecond, latestSeenSecond := first, first - 1, None;
    }

    method Record(second: int, column: Column, count: nat)
      modifies this
      ensures View() == Recorded(old(View()), second, column, count)
    {
      ghost var s := View();
      var row := if second in counts then counts[second] else multiset{};
      assert row == Retained(s, second);
      counts := counts[second := Plus(row, column, count)];
      if latestSeenSecond.None? || second > latestSeenSecond.value {
        latestSeenSecond := Some(second);
      }
    }

    method FlushClosed(final: bool, now: int)
      modifies this
      ensures View() == Flushed(old(View()), final, now)
    {
      var closedThrough := now - 1;
      if final {
        if latestSeenSecond.None? {
          return;
        }
        closedThrough := latestSeenSecond.value;
      } else if closedThrough < firstSecond {
        return;
      }
      if closedThrough <= lastFlushedSecond {
        return;
      }
      ghost var s := View();
      var newRows := [];
      var current := lastFlushedSecond + 1;
      while current <= closedThrough
        invariant s.lastFlushed < current <= closedThrough + 1
        invariant |newRows| == current - s.lastFlushed - 1
        invariant forall i :: 0 <= i < |newRows| ==>
          newRows[i] == Row(s.lastFlushed + 1 + i, Retained(s, s.lastFlushed + 1 + i))
        invariant counts == map k | k in s.counts && !(s.lastFlushed < k < current) :: s.counts[k]
        invariant rows == s.rows && firstSecond == s.first
        invariant lastFlushedSecond == s.lastFlushed && latestSeenSecond == s.latestSeen
      {
        if current in counts {
          newRows := newRows + [Row(current, counts[current])];
          counts := counts - {current};
        } else {
          newRows := newRows + [Row(current, multiset{})];
        }
        current := current + 1;
      }
      rows := rows + newRows;
      lastFlushedSecond := closedThrough;
    }
  }

  // ---------------------------------------------------------------------
  // Runs
  // ---------------------------------------------------------------------

  datatype Event = Record(second: int, column: Column, count: nat) | Flush(final: bool, now: int)

  function Step(s: State, e: Event): State {
    match e
    case Record(second, column, count) => Recorded(s, second, column, count)
    case Flush(final, now) => Flushed(s, final, now)
  }

  function After(first: int, run: seq<Event>): State {
    if |run| == 0 then Reset(first) else Step(After(first, run[..|run| - 1]), run[|run| - 1])
  }

  /** Everything the run recorded for a second, late records included. */
  function AllRecorded(run: seq<Event>, second: int): multiset<Column> {
    if |run| == 0 then multiset{}
    else
      var before, e := AllRecorded(run[..|run| - 1], second), run[|run| - 1];
      if e.Record? && e.second == second then before[e.column := before[e.column] + e.count] else before
  }

  /** Some record names a second that has already been written. */
  predicate Late(first: int, run: seq<Event>, second: int) {
    exists i :: 0 <= i < |run| && run[i].Record? && run[i].second == second &&
                second <= After(first, run[..i]).lastFlushed
  }

  function Written(s: State, second: int): multiset<Column> {
    var i := second - s.first;
    if 0 <= i < |s.rows| then s.rows[i].counts else multiset{}
  }

  /** One row per second from the first on, none skipped, none twice. */
  predicate Consecutive(s: State) {
    && |s.rows| == s.lastFlushed - s.first + 1
    && (forall i :: 0 <= i < |s.rows| ==> s.rows[i].second == s.first + i)
  }

  predicate Bounded(s: State) {
    forall k :: k in s.counts ==> s.latestSeen.Some? && k <= s.latestSeen.value
  }

  lemma StepConsecutive(s: State, e: Event)
    requires Consecutive(s) && Bounded(s)
    ensures Consecutive(Step(s, e)) && Bounded(Step(s, e)) && Step(s, e).first == s.first
    ensures Step(s, e).lastFlushed >= s.lastFlushed
  {
  }

  lemma {:induction false} RunConsecutive(first: int, run: seq<Event>)
    ensures var s := After(first, run); Consecutive(s) && Bounded(s) && s.first == first
  {
    if |run| > 0 {
      RunConsecutive(first, run[..|run| - 1]);
      StepConsecutive(After(first, run[..|run| - 1]), run[|run| - 1]);
    }
  }

  lemma FlushMoves(s: State, final: bool, now: int, second: int)
    requires Consecutive(s)
    ensures var t := Flushed(s, final, now);
      Written(t, second) + Retained(t, second) == Written(s, second) + Retained(s, second)
  {
  }

  lemma RecordAdds(s: State, second: int, column: Column, count: nat, k: int)
    ensures var t := Recorded(s, second, column, count);
      && Written(t, k) == Written(s, k)
      && Retained(t, k) ==
         if k == second then Retained(s, k)[column := Retained(s, k)[column] + count] else Retained(s, k)
  {
  }

  lemma AddToSum(a: multiset<Column>, b: multiset<Column>, sum: multiset<Column>, column: Column, count: nat)
    requires a + b == sum
    ensures a + b[column := b[column] + count] == sum[column := sum[column] + count]
  {
  }

  /**
    Over any run of records and flushes, for every second: what its row holds plus what is still
    retained for it is exactly what was recorded for it, column by column.
  */
  lemma {:induction false} CountsConserved(first: int, run: seq<Event>, second: int)
    ensures var s := After(first, run);
      Written(s, second) + Retained(s, second) == AllRecorded(run, second)
  {
    if |run| > 0 {
      var init, e := run[..|run| - 1], run[|run| - 1];
      CountsConserved(first, init, second);
      RunConsecutive(first, init);
      var s := After(first, init);
      match e {
        case Record(k, column, count) =>
          RecordAdds(s, k, column, count, second);
          AddToSum(Written(s, second), Retained(s, second), AllRecorded(init, second), column, count);
        case Flush(final, now) => FlushMoves(s, final, now, second);
      }
    }
  }

  lemma LateExtends(first: int, init: seq<Event>, e: Event, second: int)
    ensures Late(first, init + [e], second) <==>
            Late(first, init, second) || (e.Record? && e.second == second && second <= After(first, init).lastFlushed)
  {
    var run := init + [e];
    assert run[..|init|] == init;
    if Late(first, init, second) {
      var i :| 0 <= i < |init| && init[i].Record? && init[i].second == second &&
               second <= After(first, init[..i]).lastFlushed;
      assert run[i] == init[i] && run[..i] == init[..i];
    }
    if Late(first, run, second) {
      var i :| 0 <= i < |run| && run[i].Record? && run[i].second == second &&
               second <= After(first, run[..i]).lastFlushed;
      if i < |init| {
        assert run[i] == init[i] && run[..i] == init[..i];
      }
    }
    if e.Record? && e.second == second && second <= After(first, init).lastFlushed {
      assert run[|init|] == e;
    }
  }

  /** Among the seconds already written, those still holding counts are those recorded late. */
  lemma {:induction false} RetainedIsLate(first: int, run: seq<Event>, second: int)
    ensures var s := After(first, run);
      second <= s.lastFlushed ==> (second in s.counts <==> Late(first, run, second))
  {
    if |run| == 0 {
      assert After(first, run).counts == map[];
    } else {
      var init, e := run[..|run| - 1], run[|run| - 1];
      assert run == init + [e];
      RetainedIsLate(first, init, second);
      RunConsecutive(first, init);
      LateExtends(first, init, e, second);
      NotYetLate(first, init, second);
    }
  }

  /** A second that is not yet written has no late record. */
  lemma {:induction false} NotYetLate(first: int, run: seq<Event>, second: int)
    ensures second > After(first, run).lastFlushed ==> !Late(first, run, second)
  {
    if |run| > 0 {
      var init, e := run[..|run| - 1], run[|run| - 1];
      assert run == init + [e];
      NotYetLate(first, init, second);
      RunConsecutive(first, init);
      StepConsecutive(After(first, init), e);
      LateExtends(first, init, e, second);
    }
  }

  /** The final flush leaves counts behind for exactly the seconds that were recorded late; without
      late records it leaves nothing and every row holds all that was recorded for its second. */
  lemma FinalFlushRetainsOnlyLate(first: int, run: seq<Event>, now: int, second: int)
    ensures var s := After(first, run + [Flush(true, now)]);
      second in s.counts <==> Late(first, run, second)
    ensures !Late(first, run, second) ==>
      var s := After(first, run + [Flush(true, now)]); Written(s, second) == AllRecorded(run, second)
  {
    var all := run + [Flush(true, now)];
    assert all[..|run|] == run;
    var s := After(first, all);
    RunConsecutive(first, run);
    RunConsecutive(first, all);
    RetainedIsLate(first, all, second);
    LateExtends(first, run, Flush(true, now), second);
    CountsConserved(first, all, second);
    assert AllRecorded(all, second) == AllRecorded(run, second);
    NotYetLate(first, all, second);
    if second in s.counts {
      assert second <= s.latestSeen.value <= s.lastFlushed;
    }
  }

  /**
    A flush that is not final writes the seconds before `now` that are not written yet, and no other: the
    current second stays open. A final one writes up to the latest second that was recorded.
  */
  lemma FlushWritesExactly(s: State, final: bool, now: int, second: int)
    requires Consecutive(s)
    ensures var t := Step(s, Flush(final, now));
      && s.rows <= t.rows
      && ((exists i :: |s.rows| <= i < |t.rows| && t.rows[i].second == second) <==>
          && s.lastFlushed < second
          && if final then s.latestSeen.Some? && second <= s.latestSeen.value
             else s.first < now && second < now)
  {
    var t := Flushed(s, final, now);
    if s.lastFlushed < second <= t.lastFlushed {
      assert t.rows[|s.rows| + (second - s.lastFlushed - 1)].second == second;
    }
  }

  /** Over any run: the latest second seen is the greatest second recorded. */
  lemma {:induction false} LatestIsGreatest(first: int, run: seq<Event>)
    ensures var latest := After(first, run).latestSeen;
      if exists i :: 0 <= i < |run| && run[i].Record? then
        && latest.Some? && (exists i :: 0 <= i < |run| && run[i].Record? && run[i].second == latest.value)
        && (forall i :: 0 <= i < |run| && run[i].Record? ==> run[i].second <= latest.value)
      else latest.None?
  {
    if |run| > 0 {
      var init := run[..|run| - 1];
      LatestIsGreatest(first, init);
      assert forall i :: 0 <= i < |init| ==> init[i] == run[i];
      if run[|run| - 1].Record? {
        assert run[|run| - 1].Record? && run[|run| - 1].second <= After(first, run).latestSeen.value;
      }
    }
  }
}

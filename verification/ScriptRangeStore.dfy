/**
  The sparse index over a request script: a read that starts at an indexed offset gives the same
  filled series as a read of the whole file.
*/
module ScriptRangeStore {
  import opened Common
  import S = SeriesSampling

  type Byte = x: int | 0 <= x < 256

  const NEWLINE: Byte := 10
  const SECOND: int := 1_000_000

  /** A readable line: a time in microseconds and the requests of that time. */
  datatype Row = Row(timestamp: int, requests: int)

  /** What a line means; None for a line that cannot be read as a row. */
  type Parser = seq<Byte> -> Option<Row>

  /** An index entry: the time of a row and the offset at which its line starts. */
  datatype Entry = Entry(timestamp: int, offset: nat)

  /** The bytes from pos to next are one line: its only newline is its last byte, or it ends the file without one. */
  predicate IsLine(file: seq<Byte>, pos: nat, next: nat) {
    && pos < next <= |file|
    && (forall i :: pos <= i < next - 1 ==> file[i] != NEWLINE)
    && (file[next - 1] == NEWLINE || next == |file|)
  }

  /** The offset after the line that starts at pos: past its newline, or the end of the file. */
  function LineEnd(file: seq<Byte>, pos: nat): (next: nat)
    requires pos <= |file|
    ensures pos <= next <= |file| && (pos < |file| ==> IsLine(file, pos, next))
    decreases |file| - pos
  {
    if pos == |file| then pos else if file[pos] == NEWLINE then pos + 1 else LineEnd(file, pos + 1)
  }

  function LineAt(file: seq<Byte>, pos: nat): seq<Byte>
    requires pos <= |file|
  {
    file[pos..LineEnd(file, pos)]
  }

  /** The readable rows from offset pos to the end of the file. */
  function RowsFrom(file: seq<Byte>, parse: Parser, pos: nat): seq<Row>
    requires pos <= |file|
    decreases |file| - pos
  {
    if pos == |file| then []
    else
      var rest := RowsFrom(file, parse, LineEnd(file, pos));
      match parse(LineAt(file, pos))
      case None => rest
      case Some(row) => [row] + rest
  }

  /** Entries for every stride-th line from pos on, when readable; `line` is the number of the line at pos. */
  function IndexFrom(file: seq<Byte>, parse: Parser, stride: nat, pos: nat, line: nat): (index: seq<Entry>)
    requires pos <= |file| && stride > 0
    ensures forall j :: 0 <= j < |index| ==> index[j].offset <= |file|
    decreases |file| - pos
  {
    if pos == |file| then []
    else
      var rest := IndexFrom(file, parse, stride, LineEnd(file, pos), line + 1);
      match parse(LineAt(file, pos))
      case None => rest
      case Some(row) => if line % stride == 0 then [Entry(row.timestamp, pos)] + rest else rest
  }

  /** The second of the window that a time at or after its start falls in. */
  function SecondOffset(start: int, timestamp: int): int { (timestamp - start) / SECOND }

  /** Reading rows k, k + 1, ... into the window: earlier rows are skipped, the first later one ends it. */
  function Collected(rows: seq<Row>, k: nat, start: int, duration: nat, acc: map<int, int>): map<int, int>
    requires k <= |rows|
    decreases |rows| - k
  {
    if k == |rows| then acc
    else
      var t := rows[k].timestamp;
      if t < start then Collected(rows, k + 1, start, duration, acc)
      else if t >= start + duration * SECOND then acc
      else Collected(rows, k + 1, start, duration, acc[SecondOffset(start, t) := rows[k].requests])
  }

  function ValueAt(points: map<int, int>, i: int): int { if i in points then points[i] else 0 }

  /** Entries at most as late as start: the insertion point to the right of equal entries. */
  function BisectRight(index: seq<Entry>, start: int, n: nat): (p: nat)
    requires n <= |index|
    ensures p <= n
  {
    if n == 0 then 0 else if index[n - 1].timestamp <= start then n else BisectRight(index, start, n - 1)
  }

  function StartingOffsetOf(index: seq<Entry>, headerOffset: nat, start: int): nat {
    var p := BisectRight(index, start, |index|);
    if p == 0 then headerOffset else index[p - 1].offset
  }

  predicate NonDecreasing(rows: seq<Row>) {
    forall i, j :: 0 <= i < j < |rows| ==> rows[i].timestamp <= rows[j].timestamp
  }

  /** Row k is at least as late as every row before it. */
  predicate Leads(rows: seq<Row>, k: nat) {
    k < |rows| && forall i :: 0 <= i < k ==> rows[i].timestamp <= rows[k].timestamp
  }

  /** What the series promises for one second: the last of the first n rows in [low, high), or zero. */
  function LastIn(rows: seq<Row>, n: nat, low: int, high: int): int
    requires n <= |rows|
  {
    if n == 0 then 0
    else if low <= rows[n - 1].timestamp < high then rows[n - 1].requests
    else LastIn(rows, n - 1, low, high)
  }

  function LastInSecond(rows: seq<Row>, n: nat, start: int, i: int): int
    requires n <= |rows|
  {
    LastIn(rows, n, start + i * SECOND, start + (i + 1) * SECOND)
  }

  /** Reading goes line by line: a line that can be read gives its row, any other nothing. */
  lemma ReadsLineByLine(file: seq<Byte>, parse: Parser, pos: nat, next: nat)
    requires IsLine(file, pos, next)
    ensures RowsFrom(file, parse, pos) ==
            (match parse(file[pos..next]) case None => [] case Some(row) => [row]) + RowsFrom(file, parse, next)
    ensures RowsFrom(file, parse, |file|) == []
  {
    LineIsUnique(file, pos, next);
  }

  /** Exactly the readable lines at multiples of the stride are indexed, at the offset where they start. */
  lemma IndexesLineByLine(file: seq<Byte>, parse: Parser, stride: nat, pos: nat, next: nat, line: nat)
    requires IsLine(file, pos, next) && stride > 0
    ensures IndexFrom(file, parse, stride, pos, line) ==
            (match parse(file[pos..next])
             case None => []
             case Some(row) => if line % stride == 0 then [Entry(row.timestamp, pos)] else [])
            + IndexFrom(file, parse, stride, next, line + 1)
    ensures IndexFrom(file, parse, stride, |file|, line) == []
  {
    LineIsUnique(file, pos, next);
  }

  lemma LineIsUnique(file: seq<Byte>, pos: nat, next: nat)
    requires IsLine(file, pos, next)
    ensures LineEnd(file, pos) == next
  {
    OneLine(file, pos, next, LineEnd(file, pos));
    OneLine(file, pos, LineEnd(file, pos), next);
  }

  lemma OneLine(file: seq<Byte>, pos: nat, a: nat, b: nat)
    requires IsLine(file, pos, a) && IsLine(file, pos, b)
    ensures a >= b
  {
  }

  // ---------------------------------------------------------------------
  // Index entries point into the rows
  // ---------------------------------------------------------------------

  /** Reading from an index entry's offset gives the rows from some row k on, and row k is the entry's. */
  lemma {:induction false} EntryPointsAtRow(file: seq<Byte>, parse: Parser, stride: nat, pos: nat, line: nat, j: nat)
    returns (k: nat)
    requires pos <= |file| && stride > 0 && j < |IndexFrom(file, parse, stride, pos, line)|
    ensures var e, rows := IndexFrom(file, parse, stride, pos, line)[j], RowsFrom(file, parse, pos);
      && k < |rows| && rows[k].timestamp == e.timestamp && rows[k..] == RowsFrom(file, parse, e.offset)
    decreases |file| - pos
  {
    var next := LineEnd(file, pos);
    match parse(LineAt(file, pos)) {
      case None => k := EntryPointsAtRow(file, parse, stride, next, line + 1, j);
      case Some(row) =>
        if line % stride == 0 && j == 0 {
          k := 0;
        } else {
          var i := if line % stride == 0 then j - 1 else j;
          var l := EntryPointsAtRow(file, parse, stride, next, line + 1, i);
          var rest := RowsFrom(file, parse, next);
          assert ([row] + rest)[l + 1..] == rest[l..];
          k := l + 1;
        }
    }
  }

  /** The entry the search returns is at most as late as start. */
  lemma {:induction false} BisectRightIsEarly(index: seq<Entry>, start: int, n: nat)
    requires n <= |index|
    ensures var p := BisectRight(index, start, n);
      && (p > 0 ==> index[p - 1].timestamp <= start)
      && (forall j :: p <= j < n ==> index[j].timestamp > start)
  {
    if n > 0 && index[n - 1].timestamp > start {
      BisectRightIsEarly(index, start, n - 1);
    }
  }

  // ---------------------------------------------------------------------
  // Seeking equals scanning
  // ---------------------------------------------------------------------

  /** Rows before a leading row at or before start leave nothing behind that survives it. */
  lemma {:induction false} PrefixLeavesNothing(rows: seq<Row>, j: nat, k: nat, start: int, duration: nat,
                                               acc: map<int, int>)
    requires j <= k && Leads(rows, k) && rows[k].timestamp <= start && duration > 0
    requires acc == map[] || (acc.Keys == {0} && rows[k].timestamp == start)
    ensures Collected(rows, j, start, duration, acc) == Collected(rows, k, start, duration, map[])
    decreases k - j
  {
    if j < k {
      var t := rows[j].timestamp;
      if t < start {
        PrefixLeavesNothing(rows, j + 1, k, start, duration, acc);
      } else {
        PrefixLeavesNothing(rows, j + 1, k, start, duration, acc[0 := rows[j].requests]);
      }
    } else if acc != map[] {
      var r := rows[k].requests;
      assert acc[0 := r] == map[0 := r] == map[][0 := r];
    }
  }

  /**
   * The seek theorem. For every file whose readable rows are in time order, every parser, stride,
   * start and duration: reading from the indexed offset collects exactly what reading from the
   * header collects, even when several rows share the indexed row's time.
   */
  lemma SeekEqualsScan(file: seq<Byte>, parse: Parser, stride: nat, header: nat, start: int, duration: nat)
    requires header <= |file| && stride > 0 && duration > 0
    requires NonDecreasing(RowsFrom(file, parse, header))
    ensures var offset := StartingOffsetOf(IndexFrom(file, parse, stride, header, 0), header, start);
      && offset <= |file|
      && Collected(RowsFrom(file, parse, offset), 0, start, duration, map[]) ==
         Collected(RowsFrom(file, parse, header), 0, start, duration, map[])
  {
    var index := IndexFrom(file, parse, stride, header, 0);
    var rows := RowsFrom(file, parse, header);
    var p := BisectRight(index, start, |index|);
    if p > 0 {
      BisectRightIsEarly(index, start, |index|);
      var k := EntryPointsAtRow(file, parse, stride, header, 0, p - 1);
      FromEarlyRow(rows, k, start, duration);
    }
  }

  lemma FromEarlyRow(rows: seq<Row>, k: nat, start: int, duration: nat)
    requires NonDecreasing(rows) && k < |rows| && rows[k].timestamp <= start && duration > 0
    ensures Collected(rows[k..], 0, start, duration, map[]) == Collected(rows, 0, start, duration, map[])
  {
    SuffixReads(rows, k, 0, start, duration, map[]);
    PrefixLeavesNothing(rows, 0, k, start, duration, map[]);
  }

  lemma {:induction false} SuffixReads(rows: seq<Row>, k: nat, i: nat, start: int, duration: nat, acc: map<int, int>)
    requires k + i <= |rows|
    ensures Collected(rows[k..], i, start, duration, acc) == Collected(rows, k + i, start, duration, acc)
    decreases |rows| - i
  {
    if k + i < |rows| {
      var t := rows[k + i].timestamp;
      assert rows[k..][i] == rows[k + i];
      if t < start {
        SuffixReads(rows, k, i + 1, start, duration, acc);
      } else if t < start + duration * SECOND {
        SuffixReads(rows, k, i + 1, start, duration, acc[SecondOffset(start, t) := rows[k + i].requests]);
      }
    }
  }

  // ---------------------------------------------------------------------
  // What a scan means
  // ---------------------------------------------------------------------

  lemma SecondOf(start: int, timestamp: int, i: int)
    ensures SecondOffset(start, timestamp) == i <==> start + i * SECOND <= timestamp < start + (i + 1) * SECOND
  {
  }

  lemma {:induction false} LateRowsAreOutside(rows: seq<Row>, k: nat, n: nat, low: int, high: int)
    requires k <= n <= |rows| && forall i :: k <= i < n ==> rows[i].timestamp >= high
    ensures LastIn(rows, n, low, high) == LastIn(rows, k, low, high)
  {
    if k < n {
      LateRowsAreOutside(rows, k, n - 1, low, high);
    }
  }

  lemma {:induction false} CollectsLastOfEachSecond(rows: seq<Row>, k: nat, start: int, duration: nat,
                                                    acc: map<int, int>, i: nat)
    requires k <= |rows| && NonDecreasing(rows) && i < duration
    requires ValueAt(acc, i) == LastInSecond(rows, k, start, i)
    ensures ValueAt(Collected(rows, k, start, duration, acc), i) == LastInSecond(rows, |rows|, start, i)
    decreases |rows| - k
  {
    if k < |rows| {
      var t := rows[k].timestamp;
      SecondOf(start, t, i);
      if t < start {
        CollectsLastOfEachSecond(rows, k + 1, start, duration, acc, i);
      } else if t >= start + duration * SECOND {
        LateRowsAreOutside(rows, k, |rows|, start + i * SECOND, start + (i + 1) * SECOND);
      } else {
        CollectsLastOfEachSecond(rows, k + 1, start, duration, acc[SecondOffset(start, t) := rows[k].requests], i);
      }
    }
  }

  // ---------------------------------------------------------------------
  // The store
  // ---------------------------------------------------------------------

  function FirstTime(rows: seq<Row>): Option<int> {
    if |rows| == 0 then None else Some(rows[0].timestamp)
  }

  function LastTime(rows: seq<Row>): Option<int> {
    if |rows| == 0 then None else Some(rows[|rows| - 1].timestamp)
  }

  /** What has been read and indexed up to pos, with what is still to come, makes up the whole. */
  ghost predicate Progress(file: seq<Byte>, parse: Parser, stride: nat, header: nat,
                           pos: nat, line: nat, read: seq<Row>, index: seq<Entry>)
    requires header <= |file| && pos <= |file| && stride > 0
  {
    && RowsFrom(file, parse, header) == read + RowsFrom(file, parse, pos)
    && IndexFrom(file, parse, stride, header, 0) == index + IndexFrom(file, parse, stride, pos, line)
  }

  lemma ProgressLine(file: seq<Byte>, parse: Parser, stride: nat, header: nat,
                     pos: nat, line: nat, read: seq<Row>, index: seq<Entry>)
    requires header <= |file| && pos < |file| && stride > 0
    requires Progress(file, parse, stride, header, pos, line, read, index)
    ensures match parse(LineAt(file, pos))
      case None => Progress(file, parse, stride, header, LineEnd(file, pos), line + 1, read, index)
      case Some(row) => Progress(file, parse, stride, header, LineEnd(file, pos), line + 1, read + [row],
                                 if line % stride == 0 then index + [Entry(row.timestamp, pos)] else index)
  {
  }

  /** The answer to a range request: the points of every second, what is shown of them, and their summary. */
  datatype Range = Range(start: int, points: seq<int>, samples: seq<S.Sample>, totalRequests: int, peak: int)

  function ResolvedDuration(durationSeconds: Option<int>): (d: nat)
    ensures durationSeconds.Some? && durationSeconds.value > 0 ==> d == durationSeconds.value
    ensures durationSeconds.Some? && durationSeconds.value < 0 ==> d == 1
    ensures durationSeconds.None? || durationSeconds.value == 0 ==> d == 3600
  {
    if durationSeconds.Some? && durationSeconds.value != 0 then Max(durationSeconds.value, 1) else 3600
  }

  method ResolveStart(wanted: Option<int>, first: int, last: int) returns (start: int)
    ensures start == Min(Max(if wanted.Some? then wanted.value else first, first), last)
  {
    start := if wanted.Some? then wanted.value else first;
    if start < first {
      start := first;
    }
    if start > last {
      start := last;
    }
  }

  class ScriptRangeStore {
    const file: seq<Byte>
    const parse: Parser
    const indexStride: nat
    const maxPoints: nat
    var indexReady: bool
    var headerOffset: nat
    var index: seq<Entry>
    var firstTimestamp: Option<int>
    var lastTimestamp: Option<int>

    ghost function AllRows(): seq<Row> { RowsFrom(file, parse, LineEnd(file, 0)) }

    ghost predicate Indexed()
      reads this
    {
      && indexStride > 0
      && headerOffset == LineEnd(file, 0)
      && index == IndexFrom(file, parse, indexStride, headerOffset, 0)
      && firstTimestamp == FirstTime(AllRows()) && lastTimestamp == LastTime(AllRows())
    }

    ghost predicate Valid()
      reads this
    {
      indexStride > 0 && maxPoints >= 32 && if indexReady then Indexed() else firstTimestamp == lastTimestamp == None
    }

    constructor (file: seq<Byte>, parse: Parser, indexStride: int, maxPoints: int)
      ensures Valid() && !indexReady
      ensures this.file == file && this.parse == parse && this.indexStride == Max(indexStride, 1)
      ensures this.maxPoints == Max(maxPoints, 32)
    {
      this.file, this.parse := file, parse;
      this.indexStride, this.maxPoints := Max(indexStride, 1), Max(maxPoints, 32);
      indexReady, headerOffset, index := false, 0, [];
      firstTimestamp, lastTimestamp := None, None;
    }

    method EnsureIndex()
      requires Valid()
      modifies this
      ensures Valid() && indexReady
    {
      if indexReady {
        return;
      }
      index := [];
      var rowIndex := 0;
      headerOffset := LineEnd(file, 0);
      var currentOffset := headerOffset;
      ghost var read: seq<Row> := [];
      while currentOffset < |file|
        invariant currentOffset <= |file| && !indexReady && headerOffset == LineEnd(file, 0)
        invariant Progress(file, parse, indexStride, headerOffset, currentOffset, rowIndex, read, index)
        invariant firstTimestamp == FirstTime(read) && lastTimestamp == LastTime(read)
        decreases |file| - currentOffset
      {
        ProgressLine(file, parse, indexStride, headerOffset, currentOffset, rowIndex, read, index);
        var parsed := parse(LineAt(file, currentOffset));
        if parsed.Some? {
          var timestamp := parsed.value.timestamp;
          if firstTimestamp.None? {
            firstTimestamp := Some(timestamp);
          }
          lastTimestamp := Some(timestamp);
          if rowIndex % indexStride == 0 {
            index := index + [Entry(timestamp, currentOffset)];
          }
          read := read + [parsed.value];
        }
        currentOffset := LineEnd(file, currentOffset);
        rowIndex := rowIndex + 1;
      }
      indexReady := true;
    }

    method StartingOffset(start: int) returns (offset: nat)
      requires Valid() && indexReady
      ensures offset == StartingOffsetOf(index, headerOffset, start) <= |file|
      ensures var early := set j | 0 <= j < |index| && index[j].timestamp <= start;
        if early == {} then offset == headerOffset
        else exists j :: j in early && offset == index[j].offset && forall i :: i in early ==> i <= j
    {
      if |index| == 0 {
        return headerOffset;
      }
      var position := BisectRight(index, start, |index|);
      BisectRightIsEarly(index, start, |index|);
      ghost var early := set j | 0 <= j < |index| && index[j].timestamp <= start;
      assert position > 0 ==> position - 1 in early;
      offset := if position == 0 then headerOffset else index[position - 1].offset;
    }

    /** One read of the window from the indexed offset. */
    method ReadWindow(start: int, duration: nat) returns (points: map<int, int>)
      requires Valid() && indexReady && duration > 0
      ensures var offset := StartingOffsetOf(index, headerOffset, start);
        offset <= |file| && points == Collected(RowsFrom(file, parse, offset), 0, start, duration, map[])
    {
      points := map[];
      var end := start + duration * SECOND;
      var position := StartingOffset(start);
      ghost var rows, k := RowsFrom(file, parse, position), 0;
      while position < |file|
        invariant position <= |file| && k <= |rows| && rows[k..] == RowsFrom(file, parse, position)
        invariant Collected(rows, 0, start, duration, map[]) == Collected(rows, k, start, duration, points)
        decreases |file| - position
      {
        var parsed := parse(LineAt(file, position));
        position := LineEnd(file, position);
        if parsed.Some? {
          assert rows[k..][0] == parsed.value && rows[k..][1..] == rows[k + 1..];
          var timestamp := parsed.value.timestamp;
          if timestamp >= end {
            return;
          }
          if start <= timestamp {
            var secondOffset := SecondOffset(start, timestamp);
            if 0 <= secondOffset < duration {
              points := points[secondOffset := parsed.value.requests];
            }
          }
          k := k + 1;
        }
      }
    }

    /**
     * The filled series: over a file in time order, each second of the window shows the requests of
     * the last row of that second anywhere in the file, and zero when there is none.
     */
    method SliceFilledSeries(start: int, duration: nat) returns (series: seq<int>)
      requires Valid() && indexReady && duration > 0
      ensures |series| == duration
      ensures NonDecreasing(AllRows()) ==>
        forall i :: 0 <= i < duration ==> series[i] == LastInSecond(AllRows(), |AllRows()|, start, i)
    {
      var points := ReadWindow(start, duration);
      series := [];
      for second := 0 to duration
        invariant |series| == second
        invariant forall i :: 0 <= i < second ==> series[i] == ValueAt(points, i)
      {
        series := series + [if second in points then points[second] else 0];
      }
      if NonDecreasing(AllRows()) {
        SeekEqualsScan(file, parse, indexStride, headerOffset, start, duration);
        forall i | 0 <= i < duration
          ensures series[i] == LastInSecond(AllRows(), |AllRows()|, start, i)
        {
          CollectsLastOfEachSecond(AllRows(), 0, start, duration, map[], i);
        }
      }
    }

    /**
     * A range request: None when the file has no readable row; otherwise the start is moved into the
     * file's time range, and the answer holds the series from there, its samples and its summary.
     */
    method GetRange(worldCupStart: Option<int>, durationSeconds: Option<int>) returns (range: Option<Range>)
      requires Valid()
      modifies this
      ensures Valid() && (range.None? <==> |AllRows()| == 0)
      ensures range.Some? ==>
        var first, last := AllRows()[0].timestamp, AllRows()[|AllRows()| - 1].timestamp;
        var wanted := if worldCupStart.Some? then worldCupStart.value else first;
        range.value.start == Min(Max(wanted, first), last)
      ensures range.Some? ==>
        var points, samples := range.value.points, range.value.samples;
        && |points| == (if durationSeconds.None? || durationSeconds.value == 0 then 3600
                        else if durationSeconds.value < 0 then 1 else durationSeconds.value)
        && |samples| == Min(|points|, maxPoints)
        && S.Cover(samples, points, |samples|, |points|)
        && range.value.totalRequests == S.SumTo(points, |points|) == S.SampledTo(samples, |samples|)
        && range.value.peak in points && forall i :: 0 <= i < |points| ==> points[i] <= range.value.peak
      ensures range.Some? && NonDecreasing(AllRows()) ==>
        forall i :: 0 <= i < |range.value.points| ==>
          range.value.points[i] == LastInSecond(AllRows(), |AllRows()|, range.value.start, i)
    {
      EnsureIndex();
      if firstTimestamp.None? || lastTimestamp.None? {
        return None;
      }
      var start := ResolveStart(worldCupStart, firstTimestamp.value, lastTimestamp.value);
      var duration := ResolvedDuration(durationSeconds);
      var points := SliceFilledSeries(start, duration);
      var samples := S.DownsamplePoints(points, maxPoints);
      var total, peak := S.Summarize(points);
      range := Some(Range(start, points, samples, total, peak));
    }
  }
}

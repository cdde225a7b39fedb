/**
 * A metric's logs in buckets, and the figures of the whole series: visualization.sql.ts,
 * series-stats.ts and the rows of VisualizationReadRepoSequelize.ts. Values are reals.
 */
module Binning {
  import opened Common
  import opened Calendar
  import opened Buckets
  import opened Zones

  datatype Log = Log(metricId: string, at: int, value: real)

  // ---- Figures.

  /** NotFinite is a figure Number() does not read as a finite number. */
  datatype Numeric = Null | Num(value: real) | NotFinite

  datatype Row = Row(bucketStart: int, average: Numeric, min: Numeric, max: Numeric, count: Numeric)

  datatype VizStats = VizStats(average: Option<real>, min: Option<real>, max: Option<real>, count: real)

  function Finite(n: Numeric): Option<real> {
    match n
    case Num(v) => Some(v)
    case _ => None
  }

  function OptMin(a: Option<real>, b: Option<real>): Option<real> {
    if a.None? then b else if b.None? then a else if a.value <= b.value then a else b
  }

  function OptMax(a: Option<real>, b: Option<real>): Option<real> {
    if a.None? then b else if b.None? then a else if a.value <= b.value then b else a
  }

  /** What is known of a group of values: enough to put two groups together. */
  datatype Figures = Figures(count: real, total: real, min: Option<real>, max: Option<real>)

  const NOTHING := Figures(0.0, 0.0, None, None)

  function Together(a: Figures, b: Figures): Figures {
    Figures(a.count + b.count, a.total + b.total, OptMin(a.min, b.min), OptMax(a.max, b.max))
  }

  lemma TogetherAssociates(a: Figures, b: Figures, c: Figures)
    ensures Together(Together(a, b), c) == Together(a, Together(b, c))
  {
  }

  lemma TogetherSwaps(a: Figures, b: Figures, c: Figures)
    ensures Together(Together(a, b), c) == Together(Together(a, c), b)
  {
  }

  function StatsFrom(f: Figures): VizStats {
    VizStats(if f.count > 0.0 then Some(f.total / f.count) else None, f.min, f.max, f.count)
  }

  // ---- summarizeBuckets

  function Weight(average: real, count: real): real {
    average * count
  }

  function RowFigures(row: Row): Figures {
    var count, average := Finite(row.count), Finite(row.average);
    if count.None? || count.value <= 0.0 || average.None? then NOTHING
    else Figures(count.value, Weight(average.value, count.value), Finite(row.min), Finite(row.max))
  }

  function RowsTogether(rows: seq<Row>): Figures {
    if rows == [] then NOTHING else Together(RowsTogether(rows[..|rows| - 1]), RowFigures(rows[|rows| - 1]))
  }

  lemma OneMoreRow(rows: seq<Row>, n: nat)
    requires n < |rows|
    ensures RowsTogether(rows[..n + 1]) == Together(RowsTogether(rows[..n]), RowFigures(rows[n]))
  {
    assert rows[..n + 1][..n] == rows[..n];
  }

  method SummarizeBuckets(rows: seq<Row>) returns (stats: VizStats)
    ensures stats == StatsFrom(RowsTogether(rows))
  {
    var count, weightedSum := 0.0, 0.0;
    var min: Option<real>, max: Option<real> := None, None;
    var n := 0;
    while n < |rows|
      invariant 0 <= n <= |rows|
      invariant Figures(count, weightedSum, min, max) == RowsTogether(rows[..n])
    {
      var row := rows[n];
      ghost var before := Figures(count, weightedSum, min, max);
      assert RowsTogether(rows[..n + 1]) == Together(before, RowFigures(row)) by {
        OneMoreRow(rows, n);
      }
      n := n + 1;
      var cnt, avg := Finite(row.count), Finite(row.average);
      if cnt.None? || cnt.value <= 0.0 || avg.None? {
        assert RowFigures(row) == NOTHING;
        continue;
      }
      var weight := Weight(avg.value, cnt.value);
      count := count + cnt.value;
      weightedSum := weightedSum + weight;
      var rowMin := Finite(row.min);
      if rowMin.Some? {
        min := if min.None? then rowMin else if min.value <= rowMin.value then min else rowMin;
      }
      var rowMax := Finite(row.max);
      if rowMax.Some? {
        max := if max.None? then rowMax else if max.value <= rowMax.value then rowMax else max;
      }
      ghost var added := Figures(cnt.value, weight, rowMin, rowMax);
      assert Figures(count, weightedSum, min, max) == Together(before, added);
      assert RowFigures(row) == added;
    }
    assert rows[..n] == rows;
    stats := VizStats(if count > 0.0 then Some(weightedSum / count) else None, min, max, count);
  }

  // ---- The query.

  /** Where buckets start: date_trunc is `floor`, and adding the interval to a bucket start is `next`. */
  datatype Grid = Grid(on: int -> bool, floor: int -> int, next: int -> int)

  ghost predicate NextOk(g: Grid) {
    && (forall x {:trigger g.next(x)} :: g.on(x) ==> g.on(g.next(x)) && x < g.next(x))
    && (forall x, y {:trigger g.next(x), g.on(y)} :: g.on(x) && g.on(y) && x < y ==> g.next(x) <= y)
  }

  ghost predicate FloorOk(g: Grid) {
    && (forall x {:trigger g.floor(x)} :: g.on(g.floor(x)) && g.floor(x) <= x)
    && (forall x, y {:trigger g.floor(x), g.on(y)} :: g.on(y) && y <= x ==> y <= g.floor(x))
  }

  ghost predicate ApartOk(g: Grid) {
    forall x, y {:trigger g.on(x), g.on(y)} :: g.on(x) && g.on(y) && x < y ==> x + 1000 <= y
  }

  ghost predicate GridOk(g: Grid) {
    NextOk(g) && FloorOk(g) && ApartOk(g)
  }

  ghost function GridOf(b: Bucket): Grid {
    Grid(x => IsBoundary(b, x), x => BucketStart(b, x), x => NextBoundary(b, x))
  }

  lemma BoundaryHour(b: Bucket, x: int)
    requires IsBoundary(b, x)
    ensures x % HOUR_MS == 0
  {
    match b
    case Hour =>
    case _ => DaysAreHours(x);
  }

  lemma DaysAreHours(x: int)
    requires x % DAY_MS == 0
    ensures x % HOUR_MS == 0
  {
    assert x == 24 * (x / DAY_MS) * HOUR_MS;
  }

  lemma BoundariesApart(b: Bucket, x: int, y: int)
    requires IsBoundary(b, x) && IsBoundary(b, y) && x < y
    ensures x + 1000 <= y
  {
    BoundaryHour(b, x);
    BoundaryHour(b, y);
    HoursApart(x, y);
  }

  lemma HoursApart(x: int, y: int)
    requires x % HOUR_MS == 0 && y % HOUR_MS == 0 && x < y
    ensures x + 1000 <= y
  {
  }

  lemma GridNext(b: Bucket, x: int, y: int)
    requires IsBoundary(b, x)
    ensures IsBoundary(b, NextBoundary(b, x)) && x < NextBoundary(b, x)
    ensures IsBoundary(b, y) && x < y ==> NextBoundary(b, x) <= y
  {
    NextIsLeast(b, x);
  }

  lemma GridFloor(b: Bucket, x: int, y: int)
    ensures IsBoundary(b, BucketStart(b, x)) && BucketStart(b, x) <= x
    ensures IsBoundary(b, y) && y <= x ==> y <= BucketStart(b, x)
  {
    StartIsGreatest(b, x);
  }

  lemma NextIsOk(b: Bucket)
    ensures NextOk(GridOf(b))
  {
    forall x {:trigger NextBoundary(b, x)} | IsBoundary(b, x)
      ensures IsBoundary(b, NextBoundary(b, x)) && x < NextBoundary(b, x)
    {
      GridNext(b, x, x);
    }
    forall x, y {:trigger NextBoundary(b, x), IsBoundary(b, y)} | IsBoundary(b, x) && IsBoundary(b, y) && x < y
      ensures NextBoundary(b, x) <= y
    {
      GridNext(b, x, y);
    }
  }

  lemma FloorIsOk(b: Bucket)
    ensures FloorOk(GridOf(b))
  {
    forall x {:trigger BucketStart(b, x)}
      ensures IsBoundary(b, BucketStart(b, x)) && BucketStart(b, x) <= x
    {
      GridFloor(b, x, x);
    }
    forall x, y {:trigger BucketStart(b, x), IsBoundary(b, y)} | IsBoundary(b, y) && y <= x
      ensures y <= BucketStart(b, x)
    {
      GridFloor(b, x, y);
    }
  }

  lemma ApartIsOk(b: Bucket)
    ensures ApartOk(GridOf(b))
  {
    forall x, y | IsBoundary(b, x) && IsBoundary(b, y) && x < y
      ensures x + 1000 <= y
    {
      BoundariesApart(b, x, y);
    }
  }

  /** All five buckets are such grids. */
  lemma BucketsAreGrids(b: Bucket)
    ensures GridOk(GridOf(b))
  {
    NextIsOk(b);
    FloorIsOk(b);
    ApartIsOk(b);
  }

  /** generate_series: the bucket starts from `from` on, up to `stop`. */
  ghost function Series(g: Grid, from: int, stop: int): seq<int>
    requires GridOk(g) && g.on(from)
    decreases stop - from
  {
    if from > stop then [] else [from] + Series(g, g.next(from), stop)
  }

  ghost function SeriesOf(off: Offsets, g: Grid, start: int, end: int): seq<int>
    requires GridOk(g)
  {
    Series(g, g.floor(Wall(off, start)), Wall(off, end) - 1000)
  }

  function InRange(logs: seq<Log>, metricId: string, start: int, end: int): seq<Log> {
    if logs == [] then []
    else
      var last := logs[|logs| - 1];
      InRange(logs[..|logs| - 1], metricId, start, end)
      + if last.metricId == metricId && start <= last.at < end then [last] else []
  }

  function Key(off: Offsets, g: Grid, log: Log): int {
    g.floor(Wall(off, log.at))
  }

  /** The logs whose bucket starts at `from` or later, and before `to`. */
  function Binned(off: Offsets, g: Grid, logs: seq<Log>, from: int, to: int): seq<Log> {
    if logs == [] then []
    else
      var last := logs[|logs| - 1];
      Binned(off, g, logs[..|logs| - 1], from, to) + if from <= Key(off, g, last) < to then [last] else []
  }

  function One(log: Log): Figures {
    Figures(1.0, log.value, Some(log.value), Some(log.value))
  }

  function FiguresOf(logs: seq<Log>): Figures {
    if logs == [] then NOTHING else Together(FiguresOf(logs[..|logs| - 1]), One(logs[|logs| - 1]))
  }

  function Figure(v: Option<real>): Numeric {
    if v.None? then Null else Num(v.value)
  }

  /** A bucket's row: nulls from the left join when it has no logs. */
  function RowOf(bucketStart: int, logs: seq<Log>): Row {
    if logs == [] then Row(bucketStart, Null, Null, Null, Null)
    else
      var f := FiguresOf(logs);
      CountOf(logs);
      Row(bucketStart, Num(f.total / f.count), Figure(f.min), Figure(f.max), Num(f.count))
  }

  function RowAt(off: Offsets, g: Grid, logs: seq<Log>, k: int): Row {
    RowOf(k, Binned(off, g, logs, k, k + 1))
  }

  function RowsFrom(off: Offsets, g: Grid, logs: seq<Log>, starts: seq<int>): (rows: seq<Row>)
    ensures |rows| == |starts|
  {
    seq(|starts|, i requires 0 <= i < |starts| => RowAt(off, g, logs, starts[i]))
  }

  ghost function Visualization(off: Offsets, b: Bucket, metricId: string, logs: seq<Log>, start: int, end: int): seq<Row> {
    BucketsAreGrids(b);
    RowsFrom(off, GridOf(b), InRange(logs, metricId, start, end), SeriesOf(off, GridOf(b), start, end))
  }

  // ---- What the figures say of the raw logs.

  function Total(logs: seq<Log>): real {
    if logs == [] then 0.0 else Total(logs[..|logs| - 1]) + logs[|logs| - 1].value
  }

  /** Count, mean, least and greatest value. */
  ghost predicate Describes(s: VizStats, logs: seq<Log>) {
    && s.count == |logs| as real
    && (s.average == if logs == [] then None else Some(Total(logs) / |logs| as real))
    && (s.min.Some? <==> logs != []) && (s.max.Some? <==> logs != [])
    && (logs != [] ==> Extremes(s.min.value, s.max.value, logs))
  }

  ghost predicate Extremes(least: real, greatest: real, logs: seq<Log>) {
    && (exists i :: 0 <= i < |logs| && logs[i].value == least)
    && (exists i :: 0 <= i < |logs| && logs[i].value == greatest)
    && forall i :: 0 <= i < |logs| ==> least <= logs[i].value <= greatest
  }

  lemma {:induction false} CountOf(logs: seq<Log>)
    ensures FiguresOf(logs).count == |logs| as real
  {
    if logs != [] {
      CountOf(logs[..|logs| - 1]);
    }
  }

  lemma {:induction false} TotalOf(logs: seq<Log>)
    ensures FiguresOf(logs).total == Total(logs)
  {
    if logs != [] {
      TotalOf(logs[..|logs| - 1]);
    }
  }

  lemma {:induction false} ExtremesOf(logs: seq<Log>)
    ensures var f := FiguresOf(logs);
            && (f.min.Some? <==> logs != []) && (f.max.Some? <==> logs != [])
            && (logs != [] ==> Extremes(f.min.value, f.max.value, logs))
  {
    if logs != [] {
      var n := |logs| - 1;
      var before := logs[..n];
      ExtremesOf(before);
      assert forall i :: 0 <= i < n ==> before[i] == logs[i];
      assert logs[n].value == logs[n].value;
    }
  }

  lemma FiguresDescribe(logs: seq<Log>)
    ensures Describes(StatsFrom(FiguresOf(logs)), logs)
  {
    CountOf(logs);
    TotalOf(logs);
    ExtremesOf(logs);
  }

  lemma DescribesUniquely(s: VizStats, t: VizStats, logs: seq<Log>)
    requires Describes(s, logs) && Describes(t, logs)
    ensures s == t
  {
    if logs != [] {
      assert s.min.value == t.min.value;
      assert s.max.value == t.max.value;
    }
  }

  // ---- Each log in one bucket.

  /** The series holds exactly the bucket starts in its range, in order. */
  lemma {:induction false} SeriesHolds(g: Grid, from: int, stop: int)
    requires GridOk(g) && g.on(from)
    ensures forall k :: k in Series(g, from, stop) <==> g.on(k) && from <= k <= stop
    ensures forall i, j :: 0 <= i < j < |Series(g, from, stop)| ==> Series(g, from, stop)[i] < Series(g, from, stop)[j]
    decreases stop - from
  {
    if from <= stop {
      var tail := Series(g, g.next(from), stop);
      SeriesHolds(g, g.next(from), stop);
      forall j | 0 <= j < |tail|
        ensures from < tail[j]
      {
        assert tail[j] in tail;
      }
      forall k
        ensures k in [from] + tail <==> g.on(k) && from <= k <= stop
      {
        assert k in [from] + tail <==> k == from || k in tail;
      }
    }
  }

  /** A log's bucket is in the series: not before the first bucket, and no later than a second before the end. */
  predicate Charted(off: Offsets, g: Grid, start: int, end: int, log: Log) {
    g.floor(Wall(off, start)) <= Wall(off, log.at) && Key(off, g, log) <= Wall(off, end) - 1000
  }

  lemma InSeriesExactly(off: Offsets, g: Grid, start: int, end: int, log: Log)
    requires GridOk(g)
    ensures Key(off, g, log) in SeriesOf(off, g, start, end) <==> Charted(off, g, start, end, log)
    ensures g.on(Wall(off, end)) ==> (Charted(off, g, start, end, log)
                                      <==> g.floor(Wall(off, start)) <= Wall(off, log.at) < Wall(off, end))
  {
    SeriesHolds(g, g.floor(Wall(off, start)), Wall(off, end) - 1000);
    if g.on(Wall(off, end)) {
      Apart(g, Key(off, g, log), Wall(off, end));
    }
  }

  /** In wall order, a log is left out exactly when its bucket starts within the last second before the end. */
  lemma LeftOutExactly(off: Offsets, g: Grid, start: int, end: int, log: Log)
    requires GridOk(g) && g.floor(Wall(off, start)) <= Wall(off, log.at) < Wall(off, end)
    ensures Key(off, g, log) !in SeriesOf(off, g, start, end)
            <==> Wall(off, end) - 1000 < g.floor(Wall(off, end) - 1) <= Wall(off, log.at)
  {
    InSeriesExactly(off, g, start, end, log);
    var last := g.floor(Wall(off, end) - 1);
    assert Key(off, g, log) <= last;
    if Key(off, g, log) < last {
      Apart(g, Key(off, g, log), last);
    }
  }

  lemma Apart(g: Grid, x: int, y: int)
    requires GridOk(g) && g.on(x) && g.on(y)
    ensures x < y <==> x <= y - 1000
  {
  }

  predicate OneIndex(s: seq<int>, k: int) {
    exists i :: 0 <= i < |s| && s[i] == k && forall j :: 0 <= j < |s| && s[j] == k ==> j == i
  }

  /** Every log is, by its wall time, at or after the first bucket's start and before the end. */
  predicate WallOrdered(off: Offsets, g: Grid, logs: seq<Log>, start: int, end: int) {
    forall i :: 0 <= i < |logs| ==> g.floor(Wall(off, start)) <= Wall(off, logs[i].at) < Wall(off, end)
  }

  /** Each log has exactly one bucket in the series if and only if all are in wall order. */
  lemma EachInOneBucket(off: Offsets, g: Grid, logs: seq<Log>, start: int, end: int)
    requires GridOk(g) && g.on(Wall(off, end))
    ensures (forall i :: 0 <= i < |logs| ==> OneIndex(SeriesOf(off, g, start, end), Key(off, g, logs[i])))
            <==> WallOrdered(off, g, logs, start, end)
  {
    var series := SeriesOf(off, g, start, end);
    SeriesHolds(g, g.floor(Wall(off, start)), Wall(off, end) - 1000);
    forall i | 0 <= i < |logs|
      ensures OneIndex(series, Key(off, g, logs[i]))
              <==> g.floor(Wall(off, start)) <= Wall(off, logs[i].at) < Wall(off, end)
    {
      InSeriesExactly(off, g, start, end, logs[i]);
    }
  }

  // ---- The rows put together.

  /** A row says of its logs what they say themselves. */
  lemma RowKeepsFigures(k: int, logs: seq<Log>)
    ensures RowFigures(RowOf(k, logs)) == FiguresOf(logs)
  {
    CountOf(logs);
    ExtremesOf(logs);
    if logs != [] {
      var f := FiguresOf(logs);
      Weighted(f.total, f.count);
    }
  }

  lemma Weighted(total: real, count: real)
    requires count > 0.0
    ensures Weight(total / count, count) == total
  {
  }

  lemma {:induction false} SplitAt(off: Offsets, g: Grid, logs: seq<Log>, from: int, at: int, to: int)
    requires from <= at <= to
    ensures FiguresOf(Binned(off, g, logs, from, to))
         == Together(FiguresOf(Binned(off, g, logs, from, at)), FiguresOf(Binned(off, g, logs, at, to)))
  {
    if logs != [] {
      var front, last := logs[..|logs| - 1], logs[|logs| - 1];
      SplitAt(off, g, front, from, at, to);
      BinnedLast(off, g, logs, from, to);
      BinnedLast(off, g, logs, from, at);
      BinnedLast(off, g, logs, at, to);
      var all, low, high := Binned(off, g, front, from, to), Binned(off, g, front, from, at), Binned(off, g, front, at, to);
      AddLow(all, low, high, last);
      AddHigh(all, low, high, last);
    }
  }

  lemma BinnedLast(off: Offsets, g: Grid, logs: seq<Log>, from: int, to: int)
    requires logs != []
    ensures var front, last := Binned(off, g, logs[..|logs| - 1], from, to), logs[|logs| - 1];
            Binned(off, g, logs, from, to) == if from <= Key(off, g, last) < to then front + [last] else front
  {
    var front := Binned(off, g, logs[..|logs| - 1], from, to);
    assert front + [] == front;
  }

  lemma AddLow(all: seq<Log>, low: seq<Log>, high: seq<Log>, last: Log)
    requires FiguresOf(all) == Together(FiguresOf(low), FiguresOf(high))
    ensures FiguresOf(all + [last]) == Together(FiguresOf(low + [last]), FiguresOf(high))
  {
    var a, b, c := FiguresOf(low), FiguresOf(high), One(last);
    assert FiguresOf(all + [last]) == Together(Together(a, b), c) by {
      AddLast(all, last);
    }
    assert FiguresOf(low + [last]) == Together(a, c) by {
      AddLast(low, last);
    }
    TogetherSwaps(a, b, c);
  }

  lemma AddHigh(all: seq<Log>, low: seq<Log>, high: seq<Log>, last: Log)
    requires FiguresOf(all) == Together(FiguresOf(low), FiguresOf(high))
    ensures FiguresOf(all + [last]) == Together(FiguresOf(low), FiguresOf(high + [last]))
  {
    var a, b, c := FiguresOf(low), FiguresOf(high), One(last);
    assert FiguresOf(all + [last]) == Together(Together(a, b), c) by {
      AddLast(all, last);
    }
    assert FiguresOf(high + [last]) == Together(b, c) by {
      AddLast(high, last);
    }
    TogetherAssociates(a, b, c);
  }

  lemma AddLast(logs: seq<Log>, last: Log)
    ensures FiguresOf(logs + [last]) == Together(FiguresOf(logs), One(last))
  {
    assert (logs + [last])[..|logs|] == logs;
  }

  /** No bucket starts strictly between a bucket start and the next. */
  lemma {:induction false} WholeBucket(off: Offsets, g: Grid, logs: seq<Log>, k: int, to: int)
    requires GridOk(g) && g.on(k) && k < to <= g.next(k)
    ensures Binned(off, g, logs, k, k + 1) == Binned(off, g, logs, k, to)
  {
    if logs != [] {
      WholeBucket(off, g, logs[..|logs| - 1], k, to);
      assert g.on(Key(off, g, logs[|logs| - 1]));
    }
  }

  lemma RowsAppend(off: Offsets, g: Grid, logs: seq<Log>, k: int, starts: seq<int>)
    ensures RowsFrom(off, g, logs, [k] + starts) == [RowAt(off, g, logs, k)] + RowsFrom(off, g, logs, starts)
  {
  }

  lemma {:induction false} TogetherFrom(row: Row, rows: seq<Row>)
    ensures RowsTogether([row] + rows) == Together(RowFigures(row), RowsTogether(rows))
  {
    if rows == [] {
      assert [row] + rows == [row] && [row][..0] == [];
    } else {
      var n := |rows| - 1;
      TogetherFrom(row, rows[..n]);
      assert ([row] + rows)[..n + 1] == [row] + rows[..n];
      TogetherAssociates(RowFigures(row), RowsTogether(rows[..n]), RowFigures(rows[n]));
    }
  }

  lemma {:induction false} NothingBinned(off: Offsets, g: Grid, logs: seq<Log>, from: int, to: int)
    requires to <= from
    ensures Binned(off, g, logs, from, to) == []
  {
    if logs != [] {
      NothingBinned(off, g, logs[..|logs| - 1], from, to);
    }
  }

  /** The rows of the series together are the logs of its buckets. */
  lemma {:induction false} SeriesKeepsFigures(off: Offsets, g: Grid, logs: seq<Log>, from: int, stop: int)
    requires GridOk(g) && g.on(from)
    ensures RowsTogether(RowsFrom(off, g, logs, Series(g, from, stop))) == FiguresOf(Binned(off, g, logs, from, stop + 1))
    decreases stop - from
  {
    if from > stop {
      NothingBinned(off, g, logs, from, stop + 1);
    } else {
      var next := g.next(from);
      SeriesKeepsFigures(off, g, logs, next, stop);
      var rest := Series(g, next, stop);
      RowsAppend(off, g, logs, from, rest);
      TogetherFrom(RowAt(off, g, logs, from), RowsFrom(off, g, logs, rest));
      RowKeepsFigures(from, Binned(off, g, logs, from, from + 1));
      BucketThenRest(off, g, logs, from, stop + 1);
    }
  }

  lemma NothingMore(f: Figures)
    ensures Together(f, NOTHING) == f
  {
  }

  lemma LastBucket(off: Offsets, g: Grid, logs: seq<Log>, from: int, to: int)
    requires GridOk(g) && g.on(from) && from < to <= g.next(from)
    ensures FiguresOf(Binned(off, g, logs, from, to))
            == Together(FiguresOf(Binned(off, g, logs, from, from + 1)), FiguresOf(Binned(off, g, logs, g.next(from), to)))
  {
    WholeBucket(off, g, logs, from, to);
    NothingBinned(off, g, logs, g.next(from), to);
    NothingMore(FiguresOf(Binned(off, g, logs, from, to)));
  }

  lemma BucketThenRest(off: Offsets, g: Grid, logs: seq<Log>, from: int, to: int)
    requires GridOk(g) && g.on(from) && from < to
    ensures FiguresOf(Binned(off, g, logs, from, to))
            == Together(FiguresOf(Binned(off, g, logs, from, from + 1)), FiguresOf(Binned(off, g, logs, g.next(from), to)))
  {
    if to <= g.next(from) {
      LastBucket(off, g, logs, from, to);
    } else {
      var next := g.next(from);
      assert Binned(off, g, logs, from, from + 1) == Binned(off, g, logs, from, next) by {
        WholeBucket(off, g, logs, from, next);
      }
      SplitAt(off, g, logs, from, next, to);
    }
  }

  /** The logs whose bucket is in the series. */
  function ChartedLogs(off: Offsets, g: Grid, logs: seq<Log>, start: int, end: int): seq<Log> {
    if logs == [] then []
    else
      var last := logs[|logs| - 1];
      ChartedLogs(off, g, logs[..|logs| - 1], start, end) + if Charted(off, g, start, end, last) then [last] else []
  }

  lemma {:induction false} ChartedAreBinned(off: Offsets, g: Grid, logs: seq<Log>, start: int, end: int)
    requires GridOk(g)
    ensures Binned(off, g, logs, g.floor(Wall(off, start)), Wall(off, end) - 1000 + 1) == ChartedLogs(off, g, logs, start, end)
  {
    if logs != [] {
      ChartedAreBinned(off, g, logs[..|logs| - 1], start, end);
      assert g.floor(Wall(off, start)) <= Key(off, g, logs[|logs| - 1]) <==> g.floor(Wall(off, start)) <= Wall(off, logs[|logs| - 1].at);
    }
  }

  lemma {:induction false} AllCharted(off: Offsets, g: Grid, logs: seq<Log>, start: int, end: int)
    requires GridOk(g) && g.on(Wall(off, end)) && WallOrdered(off, g, logs, start, end)
    ensures ChartedLogs(off, g, logs, start, end) == logs
  {
    if logs != [] {
      AllCharted(off, g, logs[..|logs| - 1], start, end);
      InSeriesExactly(off, g, start, end, logs[|logs| - 1]);
    }
  }

  lemma RowsKeepFigures(off: Offsets, g: Grid, raw: seq<Log>, start: int, end: int)
    requires GridOk(g)
    ensures RowsTogether(RowsFrom(off, g, raw, SeriesOf(off, g, start, end))) == FiguresOf(ChartedLogs(off, g, raw, start, end))
  {
    SeriesKeepsFigures(off, g, raw, g.floor(Wall(off, start)), Wall(off, end) - 1000);
    ChartedAreBinned(off, g, raw, start, end);
  }

  /**
   * Whatever the range and the zone, the summary of the rows is the count, mean, least and greatest of
   * exactly the logs in the range whose bucket is in the series.
   */
  lemma SummaryIsOfChartedLogs(off: Offsets, b: Bucket, metricId: string, logs: seq<Log>, start: int, end: int)
    ensures Describes(StatsFrom(RowsTogether(Visualization(off, b, metricId, logs, start, end))),
                      ChartedLogs(off, GridOf(b), InRange(logs, metricId, start, end), start, end))
  {
    BucketsAreGrids(b);
    RowsKeepFigures(off, GridOf(b), InRange(logs, metricId, start, end), start, end);
    FiguresDescribe(ChartedLogs(off, GridOf(b), InRange(logs, metricId, start, end), start, end));
  }

  /**
   * Binning loses and invents nothing: the summary of the rows is the count, mean, least and greatest
   * of the raw logs in the range.
   */
  lemma SummaryIsOfRawLogs(off: Offsets, b: Bucket, metricId: string, logs: seq<Log>, start: int, end: int)
    requires IsBoundary(b, Wall(off, end))
    requires WallOrdered(off, GridOf(b), InRange(logs, metricId, start, end), start, end)
    ensures Describes(StatsFrom(RowsTogether(Visualization(off, b, metricId, logs, start, end))),
                      InRange(logs, metricId, start, end))
  {
    BucketsAreGrids(b);
    SummaryIsOfChartedLogs(off, b, metricId, logs, start, end);
    AllCharted(off, GridOf(b), InRange(logs, metricId, start, end), start, end);
  }

  /** Whatever the bucket, the same figures. */
  lemma SameWhateverTheBucket(
    off: Offsets, b: Bucket, c: Bucket, metricId: string, logs: seq<Log>, start: int, end: int)
    requires IsBoundary(b, Wall(off, end)) && IsBoundary(c, Wall(off, end))
    requires WallOrdered(off, GridOf(b), InRange(logs, metricId, start, end), start, end)
    requires WallOrdered(off, GridOf(c), InRange(logs, metricId, start, end), start, end)
    ensures StatsFrom(RowsTogether(Visualization(off, b, metricId, logs, start, end)))
         == StatsFrom(RowsTogether(Visualization(off, c, metricId, logs, start, end)))
  {
    SummaryIsOfRawLogs(off, b, metricId, logs, start, end);
    SummaryIsOfRawLogs(off, c, metricId, logs, start, end);
    DescribesUniquely(StatsFrom(RowsTogether(Visualization(off, b, metricId, logs, start, end))),
                      StatsFrom(RowsTogether(Visualization(off, c, metricId, logs, start, end))),
                      InRange(logs, metricId, start, end));
  }

  /** In a zone with one offset, the logs in the range are always in wall order. */
  lemma {:induction false} FixedOffsetOrders(
    off: Offsets, offset: int, g: Grid, metricId: string, logs: seq<Log>, start: int, end: int)
    requires GridOk(g) && forall t :: off(t) == offset
    ensures WallOrdered(off, g, InRange(logs, metricId, start, end), start, end)
  {
    if logs != [] {
      FixedOffsetOrders(off, offset, g, metricId, logs[..|logs| - 1], start, end);
    }
  }

  /** There, any range that ends on a bucket start keeps every log, in one bucket each. */
  lemma ConservedInFixedOffset(
    off: Offsets, offset: int, b: Bucket, metricId: string, logs: seq<Log>, start: int, end: int)
    requires (forall t :: off(t) == offset) && IsBoundary(b, Wall(off, end))
    ensures var raw := InRange(logs, metricId, start, end);
            && Describes(StatsFrom(RowsTogether(Visualization(off, b, metricId, logs, start, end))), raw)
            && GridOk(GridOf(b))
            && forall i :: 0 <= i < |raw| ==> OneIndex(SeriesOf(off, GridOf(b), start, end), Key(off, GridOf(b), raw[i]))
  {
    BucketsAreGrids(b);
    FixedOffsetOrders(off, offset, GridOf(b), metricId, logs, start, end);
    SummaryIsOfRawLogs(off, b, metricId, logs, start, end);
    EachInOneBucket(off, GridOf(b), InRange(logs, metricId, start, end), start, end);
  }

  /** The logs kept are exactly the metric's logs in the half-open range. */
  lemma {:induction false} InRangeHolds(logs: seq<Log>, metricId: string, start: int, end: int, log: Log)
    ensures multiset(InRange(logs, metricId, start, end))[log]
         == if log.metricId == metricId && start <= log.at < end then multiset(logs)[log] else 0
  {
    if logs != [] {
      var front, last := logs[..|logs| - 1], logs[|logs| - 1];
      InRangeHolds(front, metricId, start, end, log);
      assert logs == front + [last];
    }
  }

  // ---- Each row by itself.

  /** The logs whose bucket starts at `k`. */
  function LogsAt(off: Offsets, g: Grid, logs: seq<Log>, k: int): seq<Log> {
    if logs == [] then []
    else
      var last := logs[|logs| - 1];
      LogsAt(off, g, logs[..|logs| - 1], k) + if g.floor(Wall(off, last.at)) == k then [last] else []
  }

  /** A row's figures are those of its logs, or nulls when there are none. */
  ghost predicate TellsOf(row: Row, logs: seq<Log>) {
    if logs == [] then row.average == Null && row.min == Null && row.max == Null && row.count == Null
    else
      && row.average == Num(Total(logs) / |logs| as real) && row.count == Num(|logs| as real)
      && row.min.Num? && row.max.Num? && Extremes(row.min.value, row.max.value, logs)
  }

  lemma RowTells(k: int, logs: seq<Log>)
    ensures RowOf(k, logs).bucketStart == k && TellsOf(RowOf(k, logs), logs)
  {
    CountOf(logs);
    TotalOf(logs);
    ExtremesOf(logs);
  }

  lemma {:induction false} BinnedAt(off: Offsets, g: Grid, logs: seq<Log>, k: int)
    ensures Binned(off, g, logs, k, k + 1) == LogsAt(off, g, logs, k)
  {
    if logs != [] {
      BinnedAt(off, g, logs[..|logs| - 1], k);
    }
  }

  lemma RowAtTells(off: Offsets, g: Grid, logs: seq<Log>, k: int, row: Row)
    requires row == RowAt(off, g, logs, k)
    ensures row.bucketStart == k && TellsOf(row, LogsAt(off, g, logs, k))
  {
    RowTells(k, Binned(off, g, logs, k, k + 1));
    BinnedAt(off, g, logs, k);
  }

  lemma RowTellsAt(off: Offsets, g: Grid, raw: seq<Log>, series: seq<int>, i: nat, row: Row)
    requires i < |series| && row == RowAt(off, g, raw, series[i])
    ensures var rows := RowsFrom(off, g, raw, series);
            |rows| == |series| && rows[i] == row && row.bucketStart == series[i] && TellsOf(row, LogsAt(off, g, raw, series[i]))
  {
    RowAtTells(off, g, raw, series[i], row);
  }

  /** One row for each bucket of the series, in its order: labelled with the bucket's start, and telling of exactly its logs. */
  lemma EachRowTells(off: Offsets, b: Bucket, metricId: string, logs: seq<Log>, start: int, end: int, i: nat)
    requires GridOk(GridOf(b)) && i < |SeriesOf(off, GridOf(b), start, end)|
    ensures var series, rows := SeriesOf(off, GridOf(b), start, end), Visualization(off, b, metricId, logs, start, end);
            && |rows| == |series| && rows[i].bucketStart == series[i]
            && TellsOf(rows[i], LogsAt(off, GridOf(b), InRange(logs, metricId, start, end), series[i]))
  {
    var raw, series := InRange(logs, metricId, start, end), SeriesOf(off, GridOf(b), start, end);
    RowTellsAt(off, GridOf(b), raw, series, i, RowAt(off, GridOf(b), raw, series[i]));
  }

  // ---- The charts' points.

  /** `fill` is zero, or nothing. */
  function BucketValue(row: Row, zeroFill: bool): Numeric {
    if row.count.Num? && row.count.value > 0.0 && row.average != Null then row.average
    else if zeroFill then Num(0.0) else Null
  }

  /** A point is the mean of the bucket's logs, even a mean of zero, and the fill only for no logs. */
  lemma PointIsTheMean(k: int, logs: seq<Log>, zeroFill: bool)
    ensures BucketValue(RowOf(k, logs), zeroFill)
         == if logs != [] then Num(Total(logs) / |logs| as real) else if zeroFill then Num(0.0) else Null
  {
    CountOf(logs);
    TotalOf(logs);
  }
}

/** The range shown when the requested one is empty: fallback-range.ts. */
module FallbackRange {
  import opened Common
  import opened Calendar
  import opened Buckets
  import opened Zones
  import RelativeRange

  const DEFAULT_HORIZON_MS := 180 * DAY_MS

  /** An end that Date.parse cannot read is None. */
  datatype Requested = Requested(start: Option<int>, end: Option<int>, bucket: Bucket)

  datatype Fallback = Fallback(start: int, end: int, bucket: Bucket, estimatedBuckets: int)

  function RequestedDurationMs(r: Requested): int {
    if r.start.None? || r.end.None? || r.end.value <= r.start.value then DEFAULT_HORIZON_MS
    else r.end.value - r.start.value
  }

  function Span(r: Requested, guardBuckets: int, maxHorizonMs: int): int {
    var approx := ApproxMs(r.bucket);
    Min(maxHorizonMs, Min(Max(RequestedDurationMs(r), approx), guardBuckets * approx))
  }

  function EstimateBuckets(start: int, end: int, bucket: Bucket): int {
    var span := Max(end - start, 0);
    -(-span / ApproxMs(bucket)) + 1
  }

  /** `lastLogAt` is None when there is no log, or its date is not one. */
  ghost function ComputeFallbackRange(
    r: Requested, lastLogAt: Option<int>, off: Offsets, guardBuckets: int, maxHorizonMs: int): Option<Fallback>
    requires OffsetsOk(off)
  {
    match lastLogAt
    case None => None
    case Some(last) =>
      var end := RelativeRange.StartOfNextBucket(off, last, r.bucket);
      var start := end - Span(r, guardBuckets, maxHorizonMs);
      Some(Fallback(start, end, r.bucket, EstimateBuckets(start, end, r.bucket)))
  }

  ghost function RangeFor(r: Requested, last: int, off: Offsets, guardBuckets: int, maxHorizonMs: int): Fallback
    requires OffsetsOk(off)
  {
    ComputeFallbackRange(r, Some(last), off, guardBuckets, maxHorizonMs).value
  }

  predicate Covers(f: Fallback, t: int) {
    f.start <= t < f.end
  }

  // ---- The guard.

  lemma GuardHolds(r: Requested, last: int, off: Offsets, guardBuckets: int, maxHorizonMs: int)
    requires OffsetsOk(off) && guardBuckets >= 1 && maxHorizonMs > 0
    ensures var f := RangeFor(r, last, off, guardBuckets, maxHorizonMs);
            && 0 < f.end - f.start <= guardBuckets * ApproxMs(r.bucket)
            && f.end - f.start <= maxHorizonMs
            && 2 <= f.estimatedBuckets <= guardBuckets + 1
  {
    var span, approx := Span(r, guardBuckets, maxHorizonMs), ApproxMs(r.bucket);
    assert guardBuckets * approx >= approx;
    CeilingAtMost(span, guardBuckets, approx);
  }

  lemma CeilingAtMost(span: int, n: int, approx: int)
    requires 0 < span <= n * approx && approx > 0
    ensures 1 <= -(-span / approx) <= n
  {
    var q := -span / approx;
    assert -span == approx * q + -span % approx;
    assert q >= 0 ==> approx * q >= 0;
    assert q < -n ==> approx * q <= approx * (-n - 1) == -(n * approx) - approx;
  }

  /**
   * The fallback is as long as the request, or 180 days if that is no range, but not shorter than a bucket,
   * and no longer than the guard's buckets or the horizon.
   */
  lemma LengthIs(r: Requested, last: int, off: Offsets, guardBuckets: int, maxHorizonMs: int)
    requires OffsetsOk(off)
    ensures var f := RangeFor(r, last, off, guardBuckets, maxHorizonMs);
            var asked := if r.start.Some? && r.end.Some? && r.start.value < r.end.value then r.end.value - r.start.value
                         else 15_552_000_000;
            var one, cap := ApproxMs(r.bucket), Min(guardBuckets * ApproxMs(r.bucket), maxHorizonMs);
            && f.bucket == r.bucket && FirstAt(off, StartOfNextBucketWall(Wall(off, last), r.bucket), f.end)
            && (one <= asked <= cap ==> f.end - f.start == asked)
            && (asked < one <= cap ==> f.end - f.start == one)
            && (cap < asked || cap < one ==> f.end - f.start == cap)
  {
  }

  /** The estimate is one more than the number of usual bucket lengths that hold the span. */
  lemma EstimateCounts(r: Requested, last: int, off: Offsets, guardBuckets: int, maxHorizonMs: int)
    requires OffsetsOk(off) && guardBuckets >= 1 && maxHorizonMs > 0
    ensures var f := RangeFor(r, last, off, guardBuckets, maxHorizonMs);
            (f.estimatedBuckets - 2) * ApproxMs(r.bucket) < f.end - f.start <= (f.estimatedBuckets - 1) * ApproxMs(r.bucket)
  {
    GuardHolds(r, last, off, guardBuckets, maxHorizonMs);
    var span := Span(r, guardBuckets, maxHorizonMs);
    CeilingCounts(span, ApproxMs(r.bucket));
  }

  lemma CeilingCounts(span: int, approx: int)
    requires approx > 0
    ensures (-(-span / approx) - 1) * approx < span <= -(-span / approx) * approx
  {
    var q := -span / approx;
    assert -span == approx * q + -span % approx;
    assert (-q - 1) * approx == -(approx * q) - approx;
    assert -q * approx == -(approx * q);
  }

  predicate FixedLength(b: Bucket) {
    b.Hour? || b.Day? || b.Week?
  }

  /** The usual length of an hour, a day or a week is its own. */
  lemma ApproxIsLength(b: Bucket, w: int)
    requires FixedLength(b)
    ensures NextBoundary(b, w) - BucketStart(b, w) == ApproxMs(b)
  {
  }

  lemma DaysIn400(year: int)
    ensures DayFromYear(year + 400) - DayFromYear(year) == 146_097
  {
    assert (year + 400 - 1969) / 4 == (year - 1969) / 4 + 100;
    assert (year + 400 - 1901) / 100 == (year - 1901) / 100 + 4;
    assert (year + 400 - 1601) / 400 == (year - 1601) / 400 + 1;
  }

  /** That of a month or a year is the mean over the 400 years after which the calendar repeats. */
  lemma ApproxIsMean(year: int)
    ensures (YearStart(year + 400) - YearStart(year)) * DAY_MS == 400 * ApproxMs(Year) == 4800 * ApproxMs(Month)
  {
    YearStartIsDayFromYear(year);
    YearStartIsDayFromYear(year + 400);
    DaysIn400(year);
  }

  // ---- The newest log.

  ghost predicate SameBucket(off: Offsets, b: Bucket, t: int, u: int) {
    BucketStart(b, Wall(off, t)) == BucketStart(b, Wall(off, u))
  }

  /** Where the bucket of `t` begins, as an instant. */
  ghost function BucketOpens(off: Offsets, b: Bucket, t: int): int
    requires OffsetsOk(off)
  {
    InstantAt(off, BucketStart(b, Wall(off, t)))
  }

  lemma OpensBefore(off: Offsets, b: Bucket, t: int)
    requires OffsetsOk(off)
    ensures BucketOpens(off, b, t) <= t
  {
    StartIsGreatest(b, Wall(off, t));
  }

  /** No set-back of the clocks, up to `t`, over the wall time that ends the bucket. */
  ghost predicate NoSetBackBy(off: Offsets, w: int, t: int) {
    forall c :: c <= t ==> !RelativeRange.SetBackOver(off, w, c)
  }

  lemma EndAfterLogExactly(off: Offsets, b: Bucket, t: int)
    requires OffsetsOk(off) && !PassesTwoDigitYear(Wall(off, t), b)
    ensures t < RelativeRange.StartOfNextBucket(off, t, b) <==> NoSetBackBy(off, NextBoundary(b, Wall(off, t)), t)
  {
    StartOfNextByUtc(Wall(off, t), b);
    NextIsLeast(b, Wall(off, t));
    RelativeRange.BeforeInstantExactly(off, NextBoundary(b, Wall(off, t)), t);
  }

  /**
   * The newest log is in the range exactly when the clocks have not gone back over its bucket's end by
   * then, and the bucket ends within the span.
   */
  lemma NewestLogCoveredExactly(r: Requested, last: int, off: Offsets, guardBuckets: int, maxHorizonMs: int)
    requires OffsetsOk(off) && !PassesTwoDigitYear(Wall(off, last), r.bucket)
    ensures Covers(RangeFor(r, last, off, guardBuckets, maxHorizonMs), last)
            <==> NoSetBackBy(off, NextBoundary(r.bucket, Wall(off, last)), last)
                 && RelativeRange.StartOfNextBucket(off, last, r.bucket) - last <= Span(r, guardBuckets, maxHorizonMs)
  {
    EndAfterLogExactly(off, r.bucket, last);
  }

  /** So it is when its whole bucket is no longer than the span. */
  lemma NewestLogCovered(r: Requested, last: int, off: Offsets, guardBuckets: int, maxHorizonMs: int)
    requires OffsetsOk(off) && !PassesTwoDigitYear(Wall(off, last), r.bucket)
    requires NoSetBackBy(off, NextBoundary(r.bucket, Wall(off, last)), last)
    requires RelativeRange.StartOfNextBucket(off, last, r.bucket) - BucketOpens(off, r.bucket, last)
          <= Span(r, guardBuckets, maxHorizonMs)
    ensures Covers(RangeFor(r, last, off, guardBuckets, maxHorizonMs), last)
  {
    OpensBefore(off, r.bucket, last);
    NewestLogCoveredExactly(r, last, off, guardBuckets, maxHorizonMs);
  }

  // ---- All logs of a bucket.

  /** After a change of the clocks the offset stays for two days. */
  lemma StaysAfter(off: Offsets, c: int, t: int)
    requires ZoneOk(off) && off(c) != off(c - 1) && c <= t < c + 2 * DAY_MS
    ensures off(t) == off(c)
  {
    var w := c - 1 + DAY_MS;
    assert OneChangeAround(off, w);
    var change :| ChangesAt(off, w, change);
  }

  /** The first instant at or past a bucket's start is in the bucket, if any instant up to then is. */
  lemma OpensInBucket(off: Offsets, b: Bucket, t: int)
    requires ZoneOk(off)
    ensures SameBucket(off, b, t, BucketOpens(off, b, t))
  {
    var start, next, opens := BucketStart(b, Wall(off, t)), NextBoundary(b, Wall(off, t)), BucketOpens(off, b, t);
    StartIsGreatest(b, Wall(off, t));
    NextIsLeast(b, Wall(off, t));
    OpensBefore(off, b, t);
    if next <= Wall(off, opens) {
      assert Wall(off, opens - 1) < start;
      if t < opens + 2 * DAY_MS {
        StaysAfter(off, opens, t);
      }
    }
    BetweenIsSame(b, Wall(off, t), Wall(off, opens));
  }

  lemma BetweenIsSame(b: Bucket, v: int, w: int)
    requires BucketStart(b, v) <= w < NextBoundary(b, v)
    ensures BucketStart(b, w) == BucketStart(b, v)
  {
    StartIsGreatest(b, v);
    StartIsGreatest(b, w);
    NextIsLeast(b, v);
    EndsAreBoundaries(b, v);
  }

  /** After a set-back over `w` some instant shows the millisecond before `w` again. */
  lemma ShowsAgain(off: Offsets, w: int, c: int) returns (u: int)
    requires ZoneOk(off) && RelativeRange.SetBackOver(off, w, c)
    ensures c <= u && Wall(off, u) == w - 1
  {
    u := c + (w - 1 - Wall(off, c));
    StaysAfter(off, c, u);
  }

  lemma SetBackLosesOne(r: Requested, last: int, off: Offsets, guardBuckets: int, maxHorizonMs: int, c: int) returns (u: int)
    requires ZoneOk(off) && RelativeRange.SetBackOver(off, NextBoundary(r.bucket, Wall(off, last)), c)
    requires forall t :: SameBucket(off, r.bucket, last, t) ==> !PassesTwoDigitYear(Wall(off, t), r.bucket)
    ensures SameBucket(off, r.bucket, last, u) && !Covers(RangeFor(r, u, off, guardBuckets, maxHorizonMs), u)
  {
    var next := NextBoundary(r.bucket, Wall(off, last));
    u := ShowsAgain(off, next, c);
    NextIsLeast(r.bucket, Wall(off, last));
    StartIsGreatest(r.bucket, Wall(off, last));
    BetweenIsSame(r.bucket, Wall(off, last), next - 1);
    SameBucketSameNext(r.bucket, Wall(off, last), Wall(off, u));
    NewestLogCoveredExactly(r, u, off, guardBuckets, maxHorizonMs);
  }

  /** Logs of one bucket share its end and its opening. */
  lemma SharedEnds(off: Offsets, b: Bucket, t: int, u: int)
    requires OffsetsOk(off) && SameBucket(off, b, t, u)
    requires !PassesTwoDigitYear(Wall(off, t), b) && !PassesTwoDigitYear(Wall(off, u), b)
    ensures RelativeRange.StartOfNextBucket(off, u, b) == RelativeRange.StartOfNextBucket(off, t, b)
    ensures NextBoundary(b, Wall(off, u)) == NextBoundary(b, Wall(off, t))
    ensures BucketOpens(off, b, u) == BucketOpens(off, b, t) <= u
  {
    SameBucketSameNext(b, Wall(off, t), Wall(off, u));
    StartOfNextByUtc(Wall(off, t), b);
    StartOfNextByUtc(Wall(off, u), b);
    OpensBefore(off, b, u);
  }

  /**
   * No log of a bucket is lost exactly when the clocks are never set back over its end, and the bucket
   * is no longer than the span.
   */
  lemma BucketCoveredExactly(r: Requested, last: int, off: Offsets, guardBuckets: int, maxHorizonMs: int)
    requires ZoneOk(off)
    requires forall u :: SameBucket(off, r.bucket, last, u) ==> !PassesTwoDigitYear(Wall(off, u), r.bucket)
    ensures (forall u :: SameBucket(off, r.bucket, last, u) ==>
                           Covers(RangeFor(r, u, off, guardBuckets, maxHorizonMs), u))
            <==> (forall c :: !RelativeRange.SetBackOver(off, NextBoundary(r.bucket, Wall(off, last)), c))
                 && RelativeRange.StartOfNextBucket(off, last, r.bucket) - BucketOpens(off, r.bucket, last)
                    <= Span(r, guardBuckets, maxHorizonMs)
  {
    assert SameBucket(off, r.bucket, last, last);
    OpensInBucket(off, r.bucket, last);
    SharedEnds(off, r.bucket, last, BucketOpens(off, r.bucket, last));
    if forall c :: !RelativeRange.SetBackOver(off, NextBoundary(r.bucket, Wall(off, last)), c) {
      forall u | SameBucket(off, r.bucket, last, u)
        ensures RelativeRange.StartOfNextBucket(off, u, r.bucket) == RelativeRange.StartOfNextBucket(off, last, r.bucket)
        ensures BucketOpens(off, r.bucket, last) <= u < RelativeRange.StartOfNextBucket(off, last, r.bucket)
      {
        SharedEnds(off, r.bucket, last, u);
        EndAfterLogExactly(off, r.bucket, u);
      }
    } else {
      var c :| RelativeRange.SetBackOver(off, NextBoundary(r.bucket, Wall(off, last)), c);
      var u := SetBackLosesOne(r, last, off, guardBuckets, maxHorizonMs, c);
    }
  }

  /** An instance: an hour no longer than the span, whose logs after the set-back are all lost. */
  lemma SetBackLoses(r: Requested, last: int, guardBuckets: int)
    requires r.bucket.Hour? && 0 <= last < HOUR_MS && guardBuckets >= 1
    ensures ZoneOk(RelativeRange.SET_BACK)
    ensures RelativeRange.StartOfNextBucket(RelativeRange.SET_BACK, last, Hour) - BucketOpens(RelativeRange.SET_BACK, Hour, last)
            <= Span(r, guardBuckets, DEFAULT_HORIZON_MS)
    ensures !Covers(RangeFor(r, last, RelativeRange.SET_BACK, guardBuckets, DEFAULT_HORIZON_MS), last)
  {
    RelativeRange.SetBackIsZone();
    RelativeRange.HourEndsAt(last);
    assert FirstAt(RelativeRange.SET_BACK, HOUR_MS, -HOUR_MS);
    assert BucketStart(Hour, last) == 0;
    assert FirstAt(RelativeRange.SET_BACK, 0, -2 * HOUR_MS);
    assert guardBuckets * HOUR_MS >= HOUR_MS;
  }

  // ---- Zones with one offset.

  ghost predicate Fixed(off: Offsets, offset: int) {
    -DAY_MS < offset < DAY_MS && offset % 1000 == 0 && forall t :: off(t) == offset
  }

  lemma FixedZone(off: Offsets, offset: int, w: int)
    requires Fixed(off, offset)
    ensures ZoneOk(off) && RelativeRange.AtMostOnce(off, w) && InstantAt(off, w) == w - offset
  {
    forall v
      ensures OneChangeAround(off, v)
    {
      assert ChangesAt(off, v, v);
    }
    assert FirstAt(off, w, w - offset);
  }

  /** In such a zone the log is in the range exactly when its bucket ends within the span. */
  lemma FixedCoversExactly(r: Requested, last: int, off: Offsets, offset: int, guardBuckets: int, maxHorizonMs: int)
    requires Fixed(off, offset) && !PassesTwoDigitYear(Wall(off, last), r.bucket)
    ensures OffsetsOk(off)
    ensures Covers(RangeFor(r, last, off, guardBuckets, maxHorizonMs), last)
            <==> NextBoundary(r.bucket, Wall(off, last)) - Wall(off, last) <= Span(r, guardBuckets, maxHorizonMs)
  {
    FixedZone(off, offset, NextBoundary(r.bucket, Wall(off, last)));
    StartOfNextByUtc(Wall(off, last), r.bucket);
    NextIsLeast(r.bucket, Wall(off, last));
  }

  lemma LengthOf(b: Bucket, w: int)
    ensures FixedLength(b) ==> NextBoundary(b, w) - w <= ApproxMs(b)
  {
    NextIsLeast(b, w);
    StartIsGreatest(b, w);
  }

  /** Hour, day and week buckets always hold the newest log there, under the default horizon. */
  lemma ShortBucketsAlwaysCovered(r: Requested, last: int, off: Offsets, offset: int, guardBuckets: int)
    requires Fixed(off, offset) && !PassesTwoDigitYear(Wall(off, last), r.bucket)
    requires FixedLength(r.bucket) && guardBuckets >= 1
    ensures OffsetsOk(off)
    ensures Covers(RangeFor(r, last, off, guardBuckets, DEFAULT_HORIZON_MS), last)
  {
    FixedCoversExactly(r, last, off, offset, guardBuckets, DEFAULT_HORIZON_MS);
    LengthOf(r.bucket, Wall(off, last));
    var approx := ApproxMs(r.bucket);
    assert guardBuckets * approx >= approx;
  }

  lemma MonthIs(w: int)
    ensures var d := DateOf(DayNumber(w));
            NextBoundary(Month, w) - BucketStart(Month, w) == MonthLength(d.year, d.month) * DAY_MS
  {
    var d := DateOf(DayNumber(w));
    MonthFirstStep(MonthIndex(d));
    IndexParts(d.year, d.month);
  }

  /** With a guard of one, a log at the start of a month is lost exactly in the months of 31 days. */
  lemma LongMonthsLose(r: Requested, last: int, off: Offsets, offset: int)
    requires Fixed(off, offset) && !PassesTwoDigitYear(Wall(off, last), r.bucket)
    requires r.bucket.Month? && IsBoundary(Month, Wall(off, last))
    ensures OffsetsOk(off)
    ensures var d := DateOf(DayNumber(Wall(off, last)));
            Covers(RangeFor(r, last, off, 1, DEFAULT_HORIZON_MS), last) <==> MonthLength(d.year, d.month) < 31
  {
    FixedCoversExactly(r, last, off, offset, 1, DEFAULT_HORIZON_MS);
    MonthIs(Wall(off, last));
    BoundaryStartsItself(Month, Wall(off, last));
  }

  /** A log at the start of a year is always lost, for a year is longer than the default horizon. */
  lemma YearsLose(r: Requested, last: int, off: Offsets, offset: int, guardBuckets: int)
    requires Fixed(off, offset) && !PassesTwoDigitYear(Wall(off, last), r.bucket)
    requires r.bucket.Year? && IsBoundary(Year, Wall(off, last))
    ensures OffsetsOk(off)
    ensures !Covers(RangeFor(r, last, off, guardBuckets, DEFAULT_HORIZON_MS), last)
  {
    FixedCoversExactly(r, last, off, offset, guardBuckets, DEFAULT_HORIZON_MS);
    BoundaryStartsItself(Year, Wall(off, last));
    YearsAscend(DateOf(DayNumber(Wall(off, last))).year, DateOf(DayNumber(Wall(off, last))).year + 1);
  }
}

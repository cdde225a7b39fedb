/** Bucket boundaries and month subtraction on wall times: buckets.ts and relative-range.ts. */
module Buckets {
  import opened Common
  import opened Calendar

  /** The bucket's usual length, which guards the number of buckets. */
  function ApproxMs(b: Bucket): nat {
    match b
    case Hour => 3_600_000
    case Day => 86_400_000
    case Week => 604_800_000
    case Month => 2_629_746_000
    case Year => 31_556_952_000
  }

  ghost predicate IsBoundary(b: Bucket, w: int) {
    match b
    case Hour => w % HOUR_MS == 0
    case Day => w % DAY_MS == 0
    case Week => w % DAY_MS == 0 && WeekDay(DayNumber(w)) == 1
    case Month => w % DAY_MS == 0 && DateOf(DayNumber(w)).day == 1
    case Year => w % DAY_MS == 0 && DateOf(DayNumber(w)).day == 1 && DateOf(DayNumber(w)).month == 0
  }

  function DaysSinceMonday(day: int): int {
    (WeekDay(day) + 6) % 7
  }

  /** date_trunc. */
  ghost function BucketStart(b: Bucket, w: int): int {
    var day := DayNumber(w);
    match b
    case Hour => w / HOUR_MS * HOUR_MS
    case Day => day * DAY_MS
    case Week => (day - DaysSinceMonday(day)) * DAY_MS
    case Month => MonthFirst(MonthIndex(DateOf(day))) * DAY_MS
    case Year => YearStart(DateOf(day).year) * DAY_MS
  }

  /** The boundary after `w`, reckoned without Date.UTC's two-digit years. */
  ghost function NextBoundary(b: Bucket, w: int): int {
    var day := DayNumber(w);
    match b
    case Hour => w / HOUR_MS * HOUR_MS + HOUR_MS
    case Day => (day + 1) * DAY_MS
    case Week => (day + 7 - DaysSinceMonday(day)) * DAY_MS
    case Month => MonthFirst(MonthIndex(DateOf(day)) + 1) * DAY_MS
    case Year => YearStart(DateOf(day).year + 1) * DAY_MS
  }

  ghost function StartOfNextBucketWall(w: int, b: Bucket): int {
    var d := DateOf(DayNumber(w));
    var startOfDay := DateUtc(d.year, d.month, d.day);
    match b
    case Hour => w / HOUR_MS * HOUR_MS + HOUR_MS
    case Day => startOfDay + DAY_MS
    case Week => startOfDay + (7 - DaysSinceMonday(DayNumber(w))) * DAY_MS
    case Month => DateUtc(d.year, d.month + 1, 1)
    case Year => DateUtc(d.year + 1, 0, 1)
  }

  // ---- Boundaries.

  ghost predicate LeastAfter(b: Bucket, w: int, r: int) {
    IsBoundary(b, r) && w < r && forall x :: IsBoundary(b, x) && w < x ==> r <= x
  }

  ghost predicate GreatestUpTo(b: Bucket, w: int, r: int) {
    IsBoundary(b, r) && r <= w && forall x :: IsBoundary(b, x) && x <= w ==> x <= r
  }

  /** Weeks start on Mondays; 5 January 1970, four days after the epoch, was one. */
  lemma WeeksStartOnMondays(w: int)
    ensures IsBoundary(Week, w) <==> (w - 4 * DAY_MS) % (7 * DAY_MS) == 0
  {
    var day, time := DayNumber(w), TimeOfDay(w);
    assert w == day * DAY_MS + time;
    var week, rest := (day - 4) / 7, (day - 4) % 7;
    assert day - 4 == 7 * week + rest;
    assert w - 4 * DAY_MS == week * (7 * DAY_MS) + (rest * DAY_MS + time);
    RemainderOf(w - 4 * DAY_MS, 7 * DAY_MS, week, rest * DAY_MS + time);
  }

  lemma RemainderOf(x: int, n: int, q: int, r: int)
    requires n > 0 && x == q * n + r && 0 <= r < n
    ensures x % n == r
  {
    assert x == n * (x / n) + x % n;
    var k := x / n - q;
    assert n * k == r - x % n;
    assert k >= 1 ==> n * k >= n;
    assert k <= -1 ==> n * k <= -n;
  }

  lemma WholeDay(x: int, day: int)
    requires x == day * DAY_MS
    ensures x % DAY_MS == 0 && DayNumber(x) == day
  {
  }

  /** Month and year boundaries are the firsts the calendar counts. */
  lemma FirstOfMonth(index: int)
    ensures IsBoundary(Month, MonthFirst(index) * DAY_MS)
  {
    MonthFirstStep(index);
    WholeDay(MonthFirst(index) * DAY_MS, MonthFirst(index));
    MonthOfDay(MonthFirst(index), index);
  }

  lemma FirstOfYear(year: int)
    ensures IsBoundary(Year, YearStart(year) * DAY_MS)
  {
    WholeDay(YearStart(year) * DAY_MS, YearStart(year));
    DateOfDay(Date(year, 0, 1));
  }

  lemma FirstDayOfYear(day: int)
    requires DateOf(day).day == 1 && DateOf(day).month == 0
    ensures day == YearStart(DateOf(day).year)
  {
    var d := DateOf(day);
    assert DayOf(d.year, d.month, d.day) == day;
  }

  /** A whole day compares with a time as their days do. */
  lemma CompareByDay(w: int, x: int)
    requires x % DAY_MS == 0
    ensures x == DayNumber(x) * DAY_MS
    ensures w < x <==> DayNumber(w) < DayNumber(x)
  {
  }

  lemma MonthGap(day: int, first: int)
    requires DateOf(first).day == 1
    ensures var i := MonthIndex(DateOf(day));
            && MonthFirst(i) <= day < MonthFirst(i + 1)
            && (day < first ==> MonthFirst(i + 1) <= first)
            && (first <= day ==> first <= MonthFirst(i))
  {
    var i, k := MonthIndex(DateOf(day)), MonthIndex(DateOf(first));
    DayInMonth(day);
    DayInMonth(first);
    MonthsBetween(i, k, day);
  }

  lemma MonthsBetween(i: int, k: int, day: int)
    requires MonthFirst(i) <= day < MonthFirst(i + 1)
    ensures day < MonthFirst(k) ==> MonthFirst(i + 1) <= MonthFirst(k)
    ensures MonthFirst(k) <= day ==> MonthFirst(k) <= MonthFirst(i)
  {
    if k <= i {
      MonthsAscend(k, i);
    } else {
      MonthsAscend(i + 1, k);
    }
  }

  lemma YearsBetween(y: int, z: int, day: int)
    requires YearStart(y) <= day < YearStart(y + 1)
    ensures day < YearStart(z) ==> YearStart(y + 1) <= YearStart(z)
    ensures YearStart(z) <= day ==> YearStart(z) <= YearStart(y)
  {
    if z <= y {
      YearsAscend(z, y);
    } else {
      YearsAscend(y + 1, z);
    }
  }

  lemma DateYear(day: int)
    ensures YearStart(DateOf(day).year) <= day < YearStart(DateOf(day).year + 1)
  {
    DayInYear(DateOf(day));
  }

  lemma MonthsAround(w: int, x: int)
    requires IsBoundary(Month, x)
    ensures w < x ==> NextBoundary(Month, w) <= x
    ensures x <= w ==> x <= BucketStart(Month, w)
    ensures BucketStart(Month, w) <= w < NextBoundary(Month, w)
  {
    CompareByDay(w, x);
    MonthGap(DayNumber(w), DayNumber(x));
  }

  lemma DaysApart(w: int, x: int, first: int, next: int, start: int)
    requires first <= DayNumber(w) < next && x == start * DAY_MS
    requires (DayNumber(w) < start ==> next <= start) && (start <= DayNumber(w) ==> start <= first)
    ensures w < x ==> next * DAY_MS <= x
    ensures x <= w ==> x <= first * DAY_MS
    ensures first * DAY_MS <= w < next * DAY_MS
  {
  }

  lemma YearsAround(w: int, x: int)
    requires IsBoundary(Year, x)
    ensures w < x ==> NextBoundary(Year, w) <= x
    ensures x <= w ==> x <= BucketStart(Year, w)
    ensures BucketStart(Year, w) <= w < NextBoundary(Year, w)
  {
    var y, z := DateOf(DayNumber(w)).year, DateOf(DayNumber(x)).year;
    DateYear(DayNumber(w));
    FirstDayOfYear(DayNumber(x));
    YearsBetween(y, z, DayNumber(w));
    DaysApart(w, x, YearStart(y), YearStart(y + 1), YearStart(z));
  }

  lemma WeeksAround(w: int, x: int)
    requires IsBoundary(Week, x)
    ensures w < x ==> NextBoundary(Week, w) <= x
    ensures x <= w ==> x <= BucketStart(Week, w)
    ensures BucketStart(Week, w) <= w < NextBoundary(Week, w)
  {
    var day, xday := DayNumber(w), DayNumber(x);
    assert x == xday * DAY_MS;
    assert w < x ==> day < xday;
    assert x <= w ==> xday <= day;
  }

  lemma HoursAround(w: int, x: int)
    requires IsBoundary(Hour, x)
    ensures w < x ==> NextBoundary(Hour, w) <= x
    ensures x <= w ==> x <= BucketStart(Hour, w)
    ensures BucketStart(Hour, w) <= w < NextBoundary(Hour, w)
  {
  }

  lemma DaysAround(w: int, x: int)
    requires IsBoundary(Day, x)
    ensures w < x ==> NextBoundary(Day, w) <= x
    ensures x <= w ==> x <= BucketStart(Day, w)
    ensures BucketStart(Day, w) <= w < NextBoundary(Day, w)
  {
    CompareByDay(w, x);
  }

  lemma Around(b: Bucket, w: int, x: int)
    requires IsBoundary(b, x)
    ensures w < x ==> NextBoundary(b, w) <= x
    ensures x <= w ==> x <= BucketStart(b, w)
    ensures BucketStart(b, w) <= w < NextBoundary(b, w)
  {
    match b
    case Hour => HoursAround(w, x);
    case Day => DaysAround(w, x);
    case Week => WeeksAround(w, x);
    case Month => MonthsAround(w, x);
    case Year => YearsAround(w, x);
  }

  lemma WeekEnds(w: int)
    ensures IsBoundary(Week, BucketStart(Week, w)) && IsBoundary(Week, NextBoundary(Week, w))
  {
    var day := DayNumber(w);
    WholeDay((day + 7 - DaysSinceMonday(day)) * DAY_MS, day + 7 - DaysSinceMonday(day));
    WholeDay((day - DaysSinceMonday(day)) * DAY_MS, day - DaysSinceMonday(day));
  }

  lemma MonthEnds(w: int)
    ensures IsBoundary(Month, BucketStart(Month, w)) && IsBoundary(Month, NextBoundary(Month, w))
  {
    FirstOfMonth(MonthIndex(DateOf(DayNumber(w))));
    FirstOfMonth(MonthIndex(DateOf(DayNumber(w))) + 1);
  }

  lemma YearEnds(w: int)
    ensures IsBoundary(Year, BucketStart(Year, w)) && IsBoundary(Year, NextBoundary(Year, w))
  {
    FirstOfYear(DateOf(DayNumber(w)).year);
    FirstOfYear(DateOf(DayNumber(w)).year + 1);
  }

  lemma HourEnds(w: int)
    ensures IsBoundary(Hour, BucketStart(Hour, w)) && IsBoundary(Hour, NextBoundary(Hour, w))
  {
  }

  lemma DayEnds(w: int)
    ensures IsBoundary(Day, BucketStart(Day, w)) && IsBoundary(Day, NextBoundary(Day, w))
  {
    WholeDay(DayNumber(w) * DAY_MS, DayNumber(w));
    WholeDay((DayNumber(w) + 1) * DAY_MS, DayNumber(w) + 1);
  }

  lemma EndsAreBoundaries(b: Bucket, w: int)
    ensures IsBoundary(b, BucketStart(b, w)) && IsBoundary(b, NextBoundary(b, w))
  {
    match b
    case Hour => HourEnds(w);
    case Day => DayEnds(w);
    case Week => WeekEnds(w);
    case Month => MonthEnds(w);
    case Year => YearEnds(w);
  }

  lemma NextIsLeast(b: Bucket, w: int)
    ensures LeastAfter(b, w, NextBoundary(b, w))
  {
    EndsAreBoundaries(b, w);
    Around(b, w, NextBoundary(b, w));
    forall x | IsBoundary(b, x) && w < x
      ensures NextBoundary(b, w) <= x
    {
      Around(b, w, x);
    }
  }

  lemma StartIsGreatest(b: Bucket, w: int)
    ensures GreatestUpTo(b, w, BucketStart(b, w))
  {
    EndsAreBoundaries(b, w);
    Around(b, w, NextBoundary(b, w));
    forall x | IsBoundary(b, x) && x <= w
      ensures x <= BucketStart(b, w)
    {
      Around(b, w, x);
    }
  }

  /** Two wall times are in one bucket exactly when the next boundary is the same. */
  lemma SameBucketSameNext(b: Bucket, v: int, w: int)
    ensures BucketStart(b, v) == BucketStart(b, w) <==> NextBoundary(b, v) == NextBoundary(b, w)
  {
    NextIsLeast(b, v);
    NextIsLeast(b, w);
    StartIsGreatest(b, v);
    StartIsGreatest(b, w);
  }

  /** A boundary starts its own bucket, which ends at the next boundary after it. */
  lemma BoundaryStartsItself(b: Bucket, x: int)
    requires IsBoundary(b, x)
    ensures BucketStart(b, x) == x
  {
    StartIsGreatest(b, x);
  }

  /** The years Date.UTC is given; hours need none. */
  ghost predicate PassesTwoDigitYear(w: int, b: Bucket) {
    var year := DateOf(DayNumber(w)).year;
    match b
    case Hour => false
    case Year => TwoDigit(year + 1)
    case _ => TwoDigit(year)
  }

  lemma UtcOfNextMonth(year: int, month: int)
    requires 0 <= month < 12
    ensures !TwoDigit(year) ==> DateUtc(year, month + 1, 1) == MonthFirst(12 * year + month + 1) * DAY_MS
    ensures TwoDigit(year) ==> DateUtc(year, month + 1, 1) > MonthFirst(12 * year + month + 1) * DAY_MS
  {
    MakeDayIsMonthFirst(FullYear(year), month + 1, 1);
    if TwoDigit(year) {
      MonthsAscend(12 * year + month + 1, 12 * FullYear(year) + month + 1);
    }
  }

  lemma DaysAndWeeksByUtc(w: int, b: Bucket)
    requires b.Day? || b.Week?
    ensures if PassesTwoDigitYear(w, b) then StartOfNextBucketWall(w, b) > NextBoundary(b, w)
            else StartOfNextBucketWall(w, b) == NextBoundary(b, w)
  {
    UtcOfDate(DateOf(DayNumber(w)));
  }

  lemma MonthsByUtc(w: int)
    ensures if PassesTwoDigitYear(w, Month) then StartOfNextBucketWall(w, Month) > NextBoundary(Month, w)
            else StartOfNextBucketWall(w, Month) == NextBoundary(Month, w)
  {
    UtcOfNextMonth(DateOf(DayNumber(w)).year, DateOf(DayNumber(w)).month);
  }

  lemma YearsByUtc(w: int)
    ensures if PassesTwoDigitYear(w, Year) then StartOfNextBucketWall(w, Year) > NextBoundary(Year, w)
            else StartOfNextBucketWall(w, Year) == NextBoundary(Year, w)
  {
    UtcOfDate(Date(DateOf(DayNumber(w)).year + 1, 0, 1));
  }

  lemma StartOfNextByUtc(w: int, b: Bucket)
    ensures if PassesTwoDigitYear(w, b) then StartOfNextBucketWall(w, b) > NextBoundary(b, w)
            else StartOfNextBucketWall(w, b) == NextBoundary(b, w)
  {
    match b
    case Hour =>
    case Month => MonthsByUtc(w);
    case Year => YearsByUtc(w);
    case _ => DaysAndWeeksByUtc(w, b);
  }

  /**
   * `startOfNextBucketWall` is the least boundary after its input, for all five buckets, exactly
   * when Date.UTC is given no year from 0 to 99.
   */
  lemma StartOfNextBucketIsLeast(w: int, b: Bucket)
    ensures LeastAfter(b, w, StartOfNextBucketWall(w, b)) <==> !PassesTwoDigitYear(w, b)
  {
    NextIsLeast(b, w);
    StartOfNextByUtc(w, b);
  }

  // ---- Months back.

  /** The time range of section 21.4.1.1 of ECMA-262. */
  const MAX_DATE_MS := 8_640_000_000_000_000

  predicate HeldByDate(ms: int) {
    -MAX_DATE_MS <= ms <= MAX_DATE_MS
  }

  function Moved(w: int, days: int): int {
    w + days * DAY_MS
  }

  /** None is NaN: no Date is the first of the target month. */
  ghost function SubtractMonthsWall(w: int, months: nat): Option<int> {
    var d := DateOf(DayNumber(w));
    InMonthOf(w, DateUtc(d.year, d.month - months, 1))
  }

  ghost function InMonthOf(w: int, firstMs: int): Option<int> {
    if HeldByDate(firstMs) then Some(IntoMonthOf(w, DateOf(DayNumber(firstMs)))) else None
  }

  /** `w` moved into the month that `first` starts. */
  ghost function IntoMonthOf(w: int, first: Date): int {
    var d := DateOf(DayNumber(w));
    var daysInTarget := DateOf(DayNumber(DateUtc(first.year, first.month + 1, 0))).day;
    var timeOfDay := w - DateUtc(d.year, d.month, d.day);
    DateUtc(first.year, first.month, Min(d.day, daysInTarget)) + timeOfDay
  }

  ghost function TargetIndex(w: int, months: nat): int {
    MonthIndex(DateOf(DayNumber(w))) - months
  }

  ghost function TargetDay(w: int, months: nat): int {
    var index := TargetIndex(w, months);
    Min(DateOf(DayNumber(w)).day, MonthLength(index / 12, index % 12))
  }

  /** Month index 12y + m - n, the same day or the month's last, the same time of day. */
  ghost function MonthsBefore(w: int, months: nat): int {
    (MonthFirst(TargetIndex(w, months)) + TargetDay(w, months) - 1) * DAY_MS + TimeOfDay(w)
  }

  lemma DayAndTime(day: int, time: int)
    requires 0 <= time < DAY_MS
    ensures DayNumber(day * DAY_MS + time) == day && TimeOfDay(day * DAY_MS + time) == time
  {
  }

  lemma MonthsBeforeLands(w: int, months: nat)
    ensures var index, r := TargetIndex(w, months), MonthsBefore(w, months);
            && DateOf(DayNumber(r)) == Date(index / 12, index % 12, TargetDay(w, months))
            && TimeOfDay(r) == TimeOfDay(w)
  {
    var index, target := TargetIndex(w, months), TargetDay(w, months);
    DayAndTime(MonthFirst(index) + target - 1, TimeOfDay(w));
    MonthFirstStep(index);
    MonthOfDay(MonthFirst(index) + target - 1, index);
  }

  lemma MonthsBeforeEarlier(w: int, months: nat)
    requires months > 0
    ensures MonthsBefore(w, months) < w
  {
    var index := TargetIndex(w, months);
    DayInMonth(DayNumber(w));
    MonthFirstStep(index);
    MonthsAscend(index + 1, index + months);
    assert w == DayNumber(w) * DAY_MS + TimeOfDay(w);
  }

  lemma MonthsBeforeComposes(w: int, m: nat, n: nat)
    requires DateOf(DayNumber(w)).day <= 28
    ensures MonthsBefore(MonthsBefore(w, m), n) == MonthsBefore(w, m + n)
  {
    MonthsBeforeLands(w, m);
    var index := TargetIndex(w, m);
    assert MonthIndex(Date(index / 12, index % 12, TargetDay(w, m))) == index;
  }

  /** The month Date.UTC takes a month for. */
  function ReadMonth(index: int): int {
    12 * FullYear(index / 12) + index % 12
  }

  lemma ReadMonthIs(year: int, month: int)
    requires 0 <= month < 12
    ensures ReadMonth(12 * year + month) == 12 * FullYear(year) + month
    ensures ReadMonth(12 * year + month) == if TwoDigit(year) then 12 * year + month + 22800 else 12 * year + month
  {
    IndexParts(year, month);
  }

  function LengthOfMonth(index: int): int {
    MonthLength(index / 12, index % 12)
  }

  ghost function OwnMonth(w: int): int {
    MonthIndex(DateOf(DayNumber(w)))
  }

  lemma StartsMonth(index: int)
    ensures DateOf(DayNumber(MonthFirst(index) * DAY_MS)) == Date(index / 12, index % 12, 1)
  {
    WholeDay(MonthFirst(index) * DAY_MS, MonthFirst(index));
    MonthFirstStep(index);
    MonthOfDay(MonthFirst(index), index);
  }

  /** `firstOfTarget`: the month carries into the year Date.UTC reads. */
  lemma TargetFirst(w: int, months: nat)
    ensures var d := DateOf(DayNumber(w));
            DateUtc(d.year, d.month - months, 1) == MonthFirst(ReadMonth(OwnMonth(w)) - months) * DAY_MS
  {
    var d := DateOf(DayNumber(w));
    ReadMonthIs(d.year, d.month);
    MakeDayIsMonthFirst(FullYear(d.year), d.month - months, 1);
  }

  /** The day moved to, of the month that `index` is read as. */
  ghost function LandsOn(w: int, index: int): int {
    MonthFirst(ReadMonth(index)) + Min(DateOf(DayNumber(w)).day, LengthOfMonth(ReadMonth(index))) - 1
  }

  /** Day number of `w`'s own date, in the year Date.UTC reads. */
  ghost function OwnDay(w: int): int {
    MonthFirst(ReadMonth(OwnMonth(w))) + DateOf(DayNumber(w)).day - 1
  }

  lemma OwnDayUtc(w: int)
    ensures var d := DateOf(DayNumber(w)); DateUtc(d.year, d.month, d.day) == OwnDay(w) * DAY_MS
  {
    var d := DateOf(DayNumber(w));
    ReadMonthIs(d.year, d.month);
    MakeDayIsMonthFirst(FullYear(d.year), d.month, d.day);
  }

  lemma CutByUtc(w: int, year: int, month: int)
    requires 0 <= month < 12
    ensures IntoMonthOf(w, Date(year, month, 1))
            == DateUtc(year, month, Min(DateOf(DayNumber(w)).day, MonthLength(FullYear(year), month)))
               + w - OwnDay(w) * DAY_MS
  {
    LastOfMonth(FullYear(year), month, year);
    OwnDayUtc(w);
  }

  lemma LandsByUtc(w: int, year: int, month: int)
    requires 0 <= month < 12
    ensures DateUtc(year, month, Min(DateOf(DayNumber(w)).day, MonthLength(FullYear(year), month)))
            == LandsOn(w, 12 * year + month) * DAY_MS
  {
    ReadMonthIs(year, month);
    IndexParts(FullYear(year), month);
    MakeDayIsMonthFirst(FullYear(year), month, Min(DateOf(DayNumber(w)).day, MonthLength(FullYear(year), month)));
  }

  lemma TargetTime(w: int, year: int, month: int)
    requires 0 <= month < 12
    ensures IntoMonthOf(w, Date(year, month, 1)) == Moved(w, LandsOn(w, 12 * year + month) - OwnDay(w))
  {
    CutByUtc(w, year, month);
    LandsByUtc(w, year, month);
  }

  /** The days the code moves by: those between two dates as Date.UTC reads them. */
  ghost function DaysMoved(w: int, months: nat): int {
    LandsOn(w, ReadMonth(OwnMonth(w)) - months) - OwnDay(w)
  }

  lemma IntoTarget(w: int, index: int)
    ensures IntoMonthOf(w, Date(index / 12, index % 12, 1)) == Moved(w, LandsOn(w, index) - OwnDay(w))
  {
    assert 12 * (index / 12) + index % 12 == index;
    TargetTime(w, index / 12, index % 12);
  }

  lemma InMonthIs(w: int, index: int, days: int)
    requires days == LandsOn(w, index) - OwnDay(w)
    ensures InMonthOf(w, MonthFirst(index) * DAY_MS)
            == if HeldByDate(MonthFirst(index) * DAY_MS) then Some(Moved(w, days)) else None
  {
    StartsMonth(index);
    IntoTarget(w, index);
  }

  lemma FromTarget(w: int, months: nat, index: int)
    requires index == ReadMonth(OwnMonth(w)) - months
    ensures SubtractMonthsWall(w, months) == InMonthOf(w, MonthFirst(index) * DAY_MS)
  {
    TargetFirst(w, months);
  }

  lemma LandsFrom(w: int, months: nat, index: int, days: int)
    requires index == ReadMonth(OwnMonth(w)) - months && days == LandsOn(w, index) - OwnDay(w)
    ensures SubtractMonthsWall(w, months) == if HeldByDate(MonthFirst(index) * DAY_MS) then Some(Moved(w, days)) else None
  {
    FromTarget(w, months, index);
    InMonthIs(w, index, days);
  }

  /** Where the code lands, from every wall time. */
  lemma SubtractMonthsLands(w: int, months: nat)
    ensures SubtractMonthsWall(w, months)
            == if HeldByDate(MonthFirst(ReadMonth(OwnMonth(w)) - months) * DAY_MS)
               then Some(Moved(w, DaysMoved(w, months))) else None
  {
    LandsFrom(w, months, ReadMonth(OwnMonth(w)) - months, DaysMoved(w, months));
  }

  /** The days it should. */
  ghost function DaysBefore(w: int, months: nat): int {
    var t := TargetIndex(w, months);
    MonthFirst(t) + Cut(w, t) - MonthFirst(OwnMonth(w)) - DateOf(DayNumber(w)).day
  }

  lemma MonthsBeforeIs(w: int, months: nat)
    ensures MonthsBefore(w, months) == Moved(w, DaysBefore(w, months))
  {
    DayInMonth(DayNumber(w));
    assert w == DayNumber(w) * DAY_MS + TimeOfDay(w);
  }

  lemma {:induction false} MonthsAtMost(i: int, j: int)
    requires i <= j
    ensures MonthFirst(j) <= MonthFirst(i) + 31 * (j - i)
    decreases j - i
  {
    if i < j {
      MonthFirstStep(j - 1);
      MonthsAtMost(i, j - 1);
    }
  }

  /** The days in the 1900 years after the first of a month. */
  function Days1900(index: int): int {
    MonthFirst(index + 22800) - MonthFirst(index)
  }

  /** How the day of the month is cut in each month. */
  ghost function Cut(w: int, index: int): int {
    Min(DateOf(DayNumber(w)).day, LengthOfMonth(index))
  }

  /** What Date.UTC's reading costs or spares: nothing for plain years; else the 1900 years must match at both ends. */
  ghost predicate ReadsMonthsRight(w: int, months: nat) {
    var t := TargetIndex(w, months);
    if !TwoDigit(DateOf(DayNumber(w)).year) then !TwoDigit(t / 12)
    else !TwoDigit((t + 22800) / 12) && Days1900(t) + Cut(w, t + 22800) - Cut(w, t) == Days1900(OwnMonth(w))
  }

  lemma PlainOwnYear(w: int, months: nat)
    requires !TwoDigit(DateOf(DayNumber(w)).year)
    ensures DaysMoved(w, months) == DaysBefore(w, months) <==> !TwoDigit(TargetIndex(w, months) / 12)
  {
    var t := TargetIndex(w, months);
    ReadMonthIs(DateOf(DayNumber(w)).year, DateOf(DayNumber(w)).month);
    ReadMonthIs(t / 12, t % 12);
    if TwoDigit(t / 12) {
      MonthsAscend(t, t + 22800);
    }
  }

  lemma DaysMovedFrom(w: int, months: nat, own: int, read: int)
    requires own == ReadMonth(OwnMonth(w)) && read == ReadMonth(own - months)
    ensures DaysMoved(w, months) == MonthFirst(read) + Cut(w, read) - MonthFirst(own) - DateOf(DayNumber(w)).day
  {
  }

  lemma DaysMovedFrom1900(w: int, months: nat, read: int)
    requires TwoDigit(DateOf(DayNumber(w)).year) && read == ReadMonth(TargetIndex(w, months) + 22800)
    ensures DaysMoved(w, months)
            == MonthFirst(read) + Cut(w, read) - MonthFirst(OwnMonth(w) + 22800) - DateOf(DayNumber(w)).day
  {
    ReadMonthIs(DateOf(DayNumber(w)).year, DateOf(DayNumber(w)).month);
    DaysMovedFrom(w, months, OwnMonth(w) + 22800, read);
  }

  lemma ReadTwice(t: int, own: int, months: nat)
    requires t == own - months
    ensures MonthFirst(t + 45600) - MonthFirst(own + 22800) > MonthFirst(t) - MonthFirst(own) + 31
  {
    MonthsAscend(t, t + 45600);
    MonthsAtMost(own, own + 22800);
  }

  lemma ReadAt(u: int)
    ensures ReadMonth(u) == if TwoDigit(u / 12) then u + 22800 else u
  {
    ReadMonthIs(u / 12, u % 12);
  }

  lemma DaysMisread(w: int, months: nat, u: int)
    requires TwoDigit(DateOf(DayNumber(w)).year) && u == TargetIndex(w, months) + 22800 && TwoDigit(u / 12)
    ensures DaysMoved(w, months) > DaysBefore(w, months)
  {
    ReadAt(u);
    DaysMovedFrom1900(w, months, u + 22800);
    ReadTwice(u - 22800, OwnMonth(w), months);
  }

  lemma DaysReadOnce(w: int, months: nat, u: int)
    requires TwoDigit(DateOf(DayNumber(w)).year) && u == TargetIndex(w, months) + 22800 && !TwoDigit(u / 12)
    ensures DaysMoved(w, months) - DaysBefore(w, months)
            == Days1900(u - 22800) + Cut(w, u) - Cut(w, u - 22800) - Days1900(OwnMonth(w))
  {
    ReadAt(u);
    DaysMovedFrom1900(w, months, u);
  }

  lemma ReadsRightIs(w: int, months: nat, u: int)
    requires TwoDigit(DateOf(DayNumber(w)).year) && u == TargetIndex(w, months) + 22800
    ensures ReadsMonthsRight(w, months)
            <==> !TwoDigit(u / 12) && Days1900(u - 22800) + Cut(w, u) - Cut(w, u - 22800) == Days1900(OwnMonth(w))
  {
  }

  lemma TwoDigitOwnYear(w: int, months: nat, u: int)
    requires TwoDigit(DateOf(DayNumber(w)).year) && u == TargetIndex(w, months) + 22800
    ensures DaysMoved(w, months) == DaysBefore(w, months) <==> ReadsMonthsRight(w, months)
  {
    ReadsRightIs(w, months, u);
    if TwoDigit(u / 12) {
      DaysMisread(w, months, u);
    } else {
      DaysReadOnce(w, months, u);
    }
  }

  lemma SameDays(w: int, days: int, others: int)
    ensures Moved(w, days) == Moved(w, others) <==> days == others
  {
  }

  /** The code's month subtraction is right exactly then, from every wall time whose target is in range. */
  lemma SubtractMonthsIsMonthsBefore(w: int, months: nat)
    requires SubtractMonthsWall(w, months).Some?
    ensures SubtractMonthsWall(w, months).value == MonthsBefore(w, months) <==> ReadsMonthsRight(w, months)
  {
    SubtractMonthsLands(w, months);
    MonthsBeforeIs(w, months);
    SameDays(w, DaysMoved(w, months), DaysBefore(w, months));
    MovesRightExactly(w, months);
  }

  lemma MovesRightExactly(w: int, months: nat)
    ensures DaysMoved(w, months) == DaysBefore(w, months) <==> ReadsMonthsRight(w, months)
  {
    if TwoDigit(DateOf(DayNumber(w)).year) {
      TwoDigitOwnYear(w, months, TargetIndex(w, months) + 22800);
    } else {
      PlainOwnYear(w, months);
    }
  }

  lemma LandsAtMost(w: int, index: int)
    ensures LandsOn(w, index) <= OwnDay(w) <==> ReadMonth(index) <= ReadMonth(OwnMonth(w))
    ensures LandsOn(w, index) <= OwnDay(w) || LandsOn(w, index) >= OwnDay(w) + 25
  {
    var own, landed := ReadMonth(OwnMonth(w)), ReadMonth(index);
    MonthFirstStep(landed);
    MonthFirstStep(own);
    if landed < own {
      MonthsAscend(landed + 1, own);
    } else if own < landed {
      MonthsAscend(own + 1, landed);
    }
  }

  lemma DaysAtMost(w: int, months: nat)
    ensures var own := ReadMonth(OwnMonth(w)); DaysMoved(w, months) <= 0 <==> ReadMonth(own - months) <= own
    ensures DaysMoved(w, months) <= 0 || DaysMoved(w, months) >= 25
  {
    LandsAtMost(w, ReadMonth(OwnMonth(w)) - months);
  }

  lemma MovedAtMost(w: int, days: int)
    ensures Moved(w, days) <= w <==> days <= 0
    ensures Moved(w, days) >= w + 25 * DAY_MS <==> days >= 25
  {
  }

  /** It goes no later than it started exactly when the month it lands in, as read, is no later; else weeks later. */
  lemma SubtractMonthsAtMostExactly(w: int, months: nat)
    requires SubtractMonthsWall(w, months).Some?
    ensures var own := ReadMonth(OwnMonth(w));
            SubtractMonthsWall(w, months).value <= w <==> ReadMonth(own - months) <= own
    ensures SubtractMonthsWall(w, months).value <= w || SubtractMonthsWall(w, months).value >= w + 25 * DAY_MS
  {
    SubtractMonthsLands(w, months);
    MovedAtMost(w, DaysMoved(w, months));
    DaysAtMost(w, months);
  }

  /** Day 0 of the next month is the last day of this one, in the year Date.UTC reads. */
  lemma LastOfMonth(full: int, month: int, year: int)
    requires 0 <= month < 12 && full == FullYear(year)
    ensures DateOf(DayNumber(DateUtc(year, month + 1, 0))).day == MonthLength(full, month)
  {
    MakeDayIsMonthFirst(full, month + 1, 0);
    var index := 12 * full + month;
    IndexParts(full, month);
    MonthFirstStep(index);
    var last := MonthFirst(index + 1) - 1;
    WholeDay(last * DAY_MS, last);
    MonthOfDay(last, index);
  }

  /** Every month of the years 0 to 99 is held by a Date. */
  lemma TwoDigitMonthsHeld(index: int)
    requires TwoDigit(index / 12)
    ensures HeldByDate(MonthFirst(index) * DAY_MS)
  {
    YearStartIsDayFromYear(index / 12);
  }

  lemma DaysAlong(w: int, days: int)
    ensures DayNumber(Moved(w, days)) == DayNumber(w) + days
  {
  }

  lemma LandsOnDate(w: int, index: int, read: int)
    requires read == ReadMonth(index)
    ensures DateOf(LandsOn(w, index)) == Date(read / 12, read % 12, Cut(w, read))
  {
    MonthFirstStep(read);
    MonthOfDay(LandsOn(w, index), read);
  }

  lemma PlainOwnDay(w: int)
    requires !TwoDigit(DateOf(DayNumber(w)).year)
    ensures ReadMonth(OwnMonth(w)) == OwnMonth(w) && OwnDay(w) == DayNumber(w)
  {
    ReadMonthIs(DateOf(DayNumber(w)).year, DateOf(DayNumber(w)).month);
    DayInMonth(DayNumber(w));
  }

  lemma FromPlainYear(w: int, months: nat, index: int)
    requires !TwoDigit(DateOf(DayNumber(w)).year) && TwoDigit(index / 12) && index == TargetIndex(w, months)
    ensures SubtractMonthsWall(w, months) == Some(Moved(w, LandsOn(w, index) - DayNumber(w)))
  {
    PlainOwnDay(w);
    TwoDigitMonthsHeld(index);
    LandsFrom(w, months, index, LandsOn(w, index) - DayNumber(w));
  }

  lemma DateLandedOn(w: int, index: int)
    requires TwoDigit(index / 12)
    ensures DateOf(DayNumber(Moved(w, LandsOn(w, index) - DayNumber(w))))
            == Date(index / 12 + 1900, index % 12, Cut(w, index + 22800))
  {
    DaysAlong(w, LandsOn(w, index) - DayNumber(w));
    ReadAt(index);
    LandsOnDate(w, index, index + 22800);
  }

  /** From a year past 99 into the years 0 to 99, the code lands in the month 1900 years too late. */
  lemma SubtractMonthsLands1900(w: int, months: nat, index: int)
    requires !TwoDigit(DateOf(DayNumber(w)).year) && TwoDigit(index / 12) && index == TargetIndex(w, months)
    ensures SubtractMonthsWall(w, months).Some?
    ensures DateOf(DayNumber(SubtractMonthsWall(w, months).value))
            == Date(index / 12 + 1900, index % 12, Cut(w, index + 22800))
  {
    FromPlainYear(w, months, index);
    DateLandedOn(w, index);
  }

  /** Twelve months back from 1 January of year 100 land on 1 January 1999. */
  lemma SubtractMonthsMisreadsYear99(w: int, months: nat, year: int)
    requires months == 12 && year == 99 && DateOf(DayNumber(w)) == Date(year + 1, 0, 1)
    ensures SubtractMonthsWall(w, months).Some?
    ensures DateOf(DayNumber(SubtractMonthsWall(w, months).value)) == Date(year + 1900, 0, 1)
    ensures SubtractMonthsWall(w, months).value != MonthsBefore(w, months)
  {
    IndexParts(year, 0);
    SubtractMonthsLands1900(w, months, 12 * year);
    SubtractMonthsIsMonthsBefore(w, months);
  }
}

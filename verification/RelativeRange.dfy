/** Relative ranges such as `last=7d`: parseRelativeWindow and resolveRelativeRange. */
module RelativeRange {
  import opened Common
  import opened Text
  import opened Calendar
  import opened Buckets
  import opened Zones

  datatype Unit = Hours | Days | Weeks | Months | Years

  datatype Window = Window(amount: nat, unit: Unit)

  datatype Range = Range(start: int, end: int)

  /** Number.MAX_SAFE_INTEGER. */
  const MAX_SAFE := 9_007_199_254_740_991

  /** How far from the epoch a range may start. */
  const MAX_WALL_MS := MAX_DATE_MS - 2 * DAY_MS

  function UnitOf(c: char): Option<Unit> {
    match c
    case 'h' => Some(Hours)
    case 'd' => Some(Days)
    case 'w' => Some(Weeks)
    case 'm' => Some(Months)
    case 'y' => Some(Years)
    case _ => None
  }

  function UnitChar(u: Unit): (c: char)
    ensures UnitOf(c) == Some(u)
  {
    match u
    case Hours => 'h'
    case Days => 'd'
    case Weeks => 'w'
    case Months => 'm'
    case Years => 'y'
  }

  /** A whole number without a leading zero, then a unit. */
  function ParseRelativeWindow(value: string): Option<Window> {
    if |value| < 2 then None
    else
      var digits, unit := value[..|value| - 1], UnitOf(value[|value| - 1]);
      if unit.None? || !AllDecimal(digits) || digits[0] == '0' then None
      else
        DecimalParses(digits);
        var amount := ParseNumeral(digits, 10);
        if amount > MAX_SAFE then None else Some(Window(amount, unit.value))
  }

  /** Exactly the texts that print a window of 1 to MAX_SAFE units are read, each as that window. */
  lemma WindowsAreTheirTexts(value: string, w: Window)
    ensures ParseRelativeWindow(value) == Some(w)
            <==> value == Decimal(w.amount) + [UnitChar(w.unit)] && 1 <= w.amount <= MAX_SAFE
  {
    if ParseRelativeWindow(value) == Some(w) {
      DecimalOfParse(value[..|value| - 1]);
      assert value == value[..|value| - 1] + [value[|value| - 1]];
    } else if w.amount >= 1 {
      PrintedWindow(w);
    }
  }

  lemma PrintedWindow(w: Window)
    requires w.amount >= 1
    ensures var value := Decimal(w.amount) + [UnitChar(w.unit)];
            ParseRelativeWindow(value) == if w.amount > MAX_SAFE then None else Some(w)
  {
    var value := Decimal(w.amount) + [UnitChar(w.unit)];
    assert value[..|value| - 1] == Decimal(w.amount);
    DecimalIsCanonical(w.amount);
    ParseOfNumeral(w.amount, 10);
  }

  /** None is NaN. */
  ghost function SubtractWindowWall(w: int, window: Window): Option<int> {
    match window.unit
    case Hours => Some(w - window.amount * HOUR_MS)
    case Days => Some(w - window.amount * DAY_MS)
    case Weeks => Some(w - window.amount * 7 * DAY_MS)
    case Months => SubtractMonthsWall(w, window.amount)
    case Years => SubtractMonthsWall(w, window.amount * 12)
  }

  ghost function StartOfNextBucket(off: Offsets, t: int, bucket: Bucket): int
    requires OffsetsOk(off)
  {
    InstantAt(off, StartOfNextBucketWall(Wall(off, t), bucket))
  }

  /** Where the window starts; None when no Date is its first moment. */
  ghost function StartWall(endWall: int, window: Window): Option<int> {
    var start := SubtractWindowWall(endWall, window);
    if start.Some? && -MAX_WALL_MS <= start.value <= MAX_WALL_MS then start else None
  }

  ghost function ResolveRelativeRange(off: Offsets, last: string, bucket: Bucket, now: int): Range
    requires OffsetsOk(off)
  {
    var endWall := StartOfNextBucketWall(Wall(off, now), bucket);
    var end := InstantAt(off, endWall);
    var parsed := ParseRelativeWindow(last);
    if parsed.None? then Range(end, end)
    else
      var startWall := StartWall(endWall, parsed.value);
      if startWall.None? then Range(end, end) else Range(InstantAt(off, startWall.value), end)
  }

  // ---- How long a window is.

  /** The texts of a window: its number, from 1 to the largest safe integer, and its letter. */
  predicate WindowText(last: string, n: nat, unit: char) {
    1 <= n <= 9_007_199_254_740_991 && unit in "hdwmy" && last == Decimal(n) + [unit]
  }

  /** Two days within what a Date holds. */
  predicate InReach(w: int) {
    -8_639_999_827_200_000 <= w <= 8_639_999_827_200_000
  }

  lemma TextIsWindow(last: string, n: nat, unit: char) returns (u: Unit)
    requires WindowText(last, n, unit)
    ensures ParseRelativeWindow(last) == Some(Window(n, u)) && UnitOf(unit) == Some(u)
  {
    LettersAreUnits(unit);
    u := UnitOf(unit).value;
    WindowsAreTheirTexts(last, Window(n, u));
  }

  lemma LettersAreUnits(unit: char)
    requires unit in "hdwmy"
    ensures UnitOf(unit).Some? && UnitChar(UnitOf(unit).value) == unit
  {
  }

  lemma StartIs(off: Offsets, last: string, window: Window, bucket: Bucket, now: int, endWall: int, start: Option<int>)
    requires OffsetsOk(off) && ParseRelativeWindow(last) == Some(window)
    requires endWall == StartOfNextBucketWall(Wall(off, now), bucket) && start == SubtractWindowWall(endWall, window)
    ensures var r := ResolveRelativeRange(off, last, bucket, now);
            && FirstAt(off, endWall, r.end)
            && if start.Some? && InReach(start.value) then FirstAt(off, start.value, r.start) else r.start == r.end
  {
  }

  /** Where a window of hours, days or weeks starts: its number of them before the end, by the clocks' own time. */
  lemma HoursDaysWeeksStart(off: Offsets, last: string, n: nat, unit: char, bucket: Bucket, now: int)
    requires OffsetsOk(off) && WindowText(last, n, unit) && unit in "hdw"
    ensures var endWall, r := StartOfNextBucketWall(Wall(off, now), bucket), ResolveRelativeRange(off, last, bucket, now);
            var w := endWall - n * (if unit == 'h' then 3_600_000 else if unit == 'd' then 86_400_000 else 604_800_000);
            FirstAt(off, endWall, r.end) && if InReach(w) then FirstAt(off, w, r.start) else r.start == r.end
  {
    var u := TextIsWindow(last, n, unit);
    var endWall := StartOfNextBucketWall(Wall(off, now), bucket);
    assert n * 7 * DAY_MS == n * 604_800_000;
    StartIs(off, last, Window(n, u), bucket, now, endWall, SubtractWindowWall(endWall, Window(n, u)));
  }

  /** The first moment of the month of `w` is in the range of section 21.4.1.1 of ECMA-262. */
  ghost predicate MonthHeld(w: int) {
    -8_640_000_000_000_000 <= DayOf(DateOf(DayNumber(w)).year, DateOf(DayNumber(w)).month, 1) * DAY_MS <= 8_640_000_000_000_000
  }

  /** The date `months` before the end's, its day cut to the month's length, at the end's time of day, in plain years. */
  ghost predicate MonthsEarlier(w: int, endWall: int, months: nat) {
    var d := DateOf(DayNumber(endWall));
    var index := 12 * d.year + d.month - months;
    && !TwoDigit(d.year) && !TwoDigit(index / 12)
    && DateOf(DayNumber(w)) == Date(index / 12, index % 12, Min(d.day, MonthLength(index / 12, index % 12)))
    && TimeOfDay(w) == TimeOfDay(endWall)
  }

  lemma MonthsStart(endWall: int, months: nat, w: int)
    requires MonthsEarlier(w, endWall, months)
    ensures SubtractMonthsWall(endWall, months) == if MonthHeld(w) then Some(w) else None
  {
    MonthsBeforeLands(endWall, months);
    SameDateSameTime(w, MonthsBefore(endWall, months));
    PlainOwnDay(endWall);
    SubtractMonthsLands(endWall, months);
    if SubtractMonthsWall(endWall, months).Some? {
      SubtractMonthsIsMonthsBefore(endWall, months);
    }
  }

  lemma WindowOfMonths(endWall: int, n: nat, u: Unit, months: nat, w: int)
    requires (u.Months? && months == n) || (u.Years? && months == 12 * n)
    requires MonthsEarlier(w, endWall, months)
    ensures SubtractWindowWall(endWall, Window(n, u)) == if MonthHeld(w) then Some(w) else None
  {
    MonthsStart(endWall, months, w);
  }

  lemma StartsOrEmpty(off: Offsets, last: string, window: Window, bucket: Bucket, now: int, endWall: int, w: int, held: bool)
    requires OffsetsOk(off) && ParseRelativeWindow(last) == Some(window)
    requires endWall == StartOfNextBucketWall(Wall(off, now), bucket)
    requires SubtractWindowWall(endWall, window) == if held then Some(w) else None
    ensures var r := ResolveRelativeRange(off, last, bucket, now);
            && FirstAt(off, endWall, r.end)
            && if InReach(w) && held then FirstAt(off, w, r.start) else r.start == r.end
  {
    StartIs(off, last, window, bucket, now, endWall, if held then Some(w) else None);
  }

  /**
   * Where a window of months or years starts: at the date so many months before the end. A month whose
   * first no Date holds makes the range empty.
   */
  lemma MonthsYearsStart(off: Offsets, last: string, n: nat, unit: char, bucket: Bucket, now: int, endWall: int, w: int)
    requires OffsetsOk(off) && WindowText(last, n, unit) && unit in "my"
    requires endWall == StartOfNextBucketWall(Wall(off, now), bucket)
    requires MonthsEarlier(w, endWall, if unit == 'm' then n else 12 * n)
    ensures var r := ResolveRelativeRange(off, last, bucket, now);
            && FirstAt(off, endWall, r.end)
            && if InReach(w) && MonthHeld(w) then FirstAt(off, w, r.start) else r.start == r.end
  {
    var u := TextIsWindow(last, n, unit);
    WindowOfMonths(endWall, n, u, if unit == 'm' then n else 12 * n, w);
    StartsOrEmpty(off, last, Window(n, u), bucket, now, endWall, w, MonthHeld(w));
  }

  lemma SameDateSameTime(v: int, w: int)
    requires DateOf(DayNumber(v)) == DateOf(DayNumber(w)) && TimeOfDay(v) == TimeOfDay(w)
    ensures v == w
  {
    assert DayNumber(v) == DayNumber(w);
  }

  /** Any other text gives an empty range, which ends all the same. */
  lemma OtherTextsAreEmpty(off: Offsets, last: string, bucket: Bucket, now: int)
    requires OffsetsOk(off) && forall n, unit :: !WindowText(last, n, unit)
    ensures var r := ResolveRelativeRange(off, last, bucket, now);
            r.start == r.end && FirstAt(off, StartOfNextBucketWall(Wall(off, now), bucket), r.end)
  {
    var parsed := ParseRelativeWindow(last);
    if parsed.Some? {
      WindowsAreTheirTexts(last, parsed.value);
      assert WindowText(last, parsed.value.amount, UnitChar(parsed.value.unit));
    }
  }

  // ---- Start and end.

  ghost function MonthsIn(window: Window): nat
    requires window.unit.Months? || window.unit.Years?
  {
    if window.unit.Months? then window.amount else window.amount * 12
  }

  /** The window does not start, as Date.UTC reads its months, in a later month than it ends. */
  ghost predicate StartsByEnd(endWall: int, window: Window) {
    window.unit.Months? || window.unit.Years? ==>
      var own := ReadMonth(OwnMonth(endWall));
      ReadMonth(own - MonthsIn(window)) <= own
  }

  lemma StartsByEndExactly(endWall: int, window: Window)
    requires SubtractWindowWall(endWall, window).Some?
    ensures var start := SubtractWindowWall(endWall, window).value;
            && (start <= endWall <==> StartsByEnd(endWall, window))
            && (start <= endWall || start >= endWall + 25 * DAY_MS)
  {
    if window.unit.Months? || window.unit.Years? {
      SubtractMonthsAtMostExactly(endWall, MonthsIn(window));
    }
  }

  /** So it does when neither end is in a year from 0 to 99. */
  lemma PlainYearsStartByEnd(endWall: int, window: Window)
    requires window.unit.Months? || window.unit.Years? ==>
               !TwoDigit(DateOf(DayNumber(endWall)).year) && !TwoDigit(TargetIndex(endWall, MonthsIn(window)) / 12)
    ensures StartsByEnd(endWall, window)
  {
    if window.unit.Months? || window.unit.Years? {
      var d, target := DateOf(DayNumber(endWall)), TargetIndex(endWall, MonthsIn(window));
      ReadMonthIs(d.year, d.month);
      ReadMonthIs(target / 12, target % 12);
    }
  }

  /** Wall times two days apart are never one instant. */
  lemma DaysApart(off: Offsets, v: int, w: int)
    requires OffsetsOk(off) && v + 2 * DAY_MS <= w
    ensures InstantAt(off, v) < InstantAt(off, w)
  {
    var r := InstantAt(off, v);
    InstantAtMonotone(off, v, w);
    assert Wall(off, r) < Wall(off, r - 1) + 2 * DAY_MS;
    assert Wall(off, InstantAt(off, w)) >= w;
  }

  /** The range starts by its end exactly when the window does. */
  lemma StartAtMostEnd(off: Offsets, last: string, bucket: Bucket, now: int)
    requires OffsetsOk(off)
    ensures var endWall, parsed := StartOfNextBucketWall(Wall(off, now), bucket), ParseRelativeWindow(last);
            var r := ResolveRelativeRange(off, last, bucket, now);
            r.start <= r.end
            <==> (parsed.Some? && StartWall(endWall, parsed.value).Some? ==> StartsByEnd(endWall, parsed.value))
  {
    var endWall := StartOfNextBucketWall(Wall(off, now), bucket);
    var parsed := ParseRelativeWindow(last);
    if parsed.Some? && StartWall(endWall, parsed.value).Some? {
      var startWall := StartWall(endWall, parsed.value).value;
      StartsByEndExactly(endWall, parsed.value);
      if startWall <= endWall {
        InstantAtMonotone(off, startWall, endWall);
      } else {
        DaysApart(off, endWall, startWall);
      }
    }
  }

  /** No clock change moves forward by more than `jump`. */
  ghost predicate JumpsAtMost(off: Offsets, jump: int) {
    forall t :: Wall(off, t) - Wall(off, t - 1) - 1 <= jump
  }

  /** Before a change of the clocks the offset was the same for two days. */
  lemma StayedBefore(off: Offsets, c: int, t: int)
    requires ZoneOk(off) && off(c) != off(c - 1) && c - 2 * DAY_MS <= t < c
    ensures off(t) == off(c - 1)
  {
    var w := c - DAY_MS;
    assert OneChangeAround(off, w);
    var change :| ChangesAt(off, w, change);
  }

  /** Two wall times share an instant exactly when the clocks skip from before the first to the second or past it. */
  lemma SameInstantExactly(off: Offsets, v: int, w: int)
    requires ZoneOk(off) && v <= w
    ensures InstantAt(off, v) == InstantAt(off, w) <==> Wall(off, InstantAt(off, w) - 1) < v
  {
    var r := InstantAt(off, w);
    if Wall(off, r - 1) < v < w {
      forall t | t < r
        ensures Wall(off, t) < v
      {
        if r - 2 * DAY_MS <= t {
          StayedBefore(off, r, t);
        }
      }
      FirstUnique(off, v, r, InstantAt(off, v));
    }
  }

  /** The range is not empty exactly when the clocks showed its first wall time, or a later one, just before its end. */
  lemma StartBeforeEndExactly(off: Offsets, last: string, bucket: Bucket, now: int)
    requires ZoneOk(off)
    ensures var endWall, parsed := StartOfNextBucketWall(Wall(off, now), bucket), ParseRelativeWindow(last);
            var r := ResolveRelativeRange(off, last, bucket, now);
            r.start < r.end
            <==> parsed.Some? && StartWall(endWall, parsed.value).Some?
                 && StartWall(endWall, parsed.value).value <= Wall(off, r.end - 1)
  {
    var endWall, parsed := StartOfNextBucketWall(Wall(off, now), bucket), ParseRelativeWindow(last);
    if parsed.Some? && StartWall(endWall, parsed.value).Some? {
      var v := StartWall(endWall, parsed.value).value;
      StartsByEndExactly(endWall, parsed.value);
      if v <= endWall {
        InstantAtMonotone(off, v, endWall);
        SameInstantExactly(off, v, endWall);
      } else {
        DaysApart(off, endWall, v);
      }
    }
  }

  /** A readable window longer than any forward jump of the clocks is not empty. */
  lemma StartBeforeEnd(off: Offsets, last: string, bucket: Bucket, now: int, jump: int)
    requires OffsetsOk(off) && JumpsAtMost(off, jump)
    requires ParseRelativeWindow(last).Some?
    requires var endWall := StartOfNextBucketWall(Wall(off, now), bucket);
             var start := StartWall(endWall, ParseRelativeWindow(last).value);
             start.Some? && 0 <= jump < endWall - start.value
    ensures var r := ResolveRelativeRange(off, last, bucket, now);
            r.start < r.end
  {
    var endWall := StartOfNextBucketWall(Wall(off, now), bucket);
    var v := StartWall(endWall, ParseRelativeWindow(last).value).value;
    InstantAtMonotone(off, v, endWall);
    var r := InstantAt(off, endWall);
    assert Wall(off, r) - Wall(off, r - 1) - 1 <= jump;
  }

  /** Any two instants in one wall-time bucket give the identical range. */
  lemma SameBucketSameRange(off: Offsets, last: string, bucket: Bucket, now: int, later: int)
    requires OffsetsOk(off)
    requires !PassesTwoDigitYear(Wall(off, now), bucket) && !PassesTwoDigitYear(Wall(off, later), bucket)
    requires BucketStart(bucket, Wall(off, now)) == BucketStart(bucket, Wall(off, later))
    ensures ResolveRelativeRange(off, last, bucket, now) == ResolveRelativeRange(off, last, bucket, later)
  {
    SameBucketSameNext(bucket, Wall(off, now), Wall(off, later));
    StartOfNextByUtc(Wall(off, now), bucket);
    StartOfNextByUtc(Wall(off, later), bucket);
  }

  // ---- Now and end.

  ghost predicate AtMostOnce(off: Offsets, w: int) {
    forall s, t :: Wall(off, s) == w && Wall(off, t) == w ==> s == t
  }

  /** At instant `c` the clocks were set back over `w`. */
  predicate SetBackOver(off: Offsets, w: int, c: int) {
    Wall(off, c) < w <= Wall(off, c - 1)
  }

  /** Wall time only falls by a set-back. */
  lemma {:induction false} CrossingBetween(off: Offsets, w: int, r: int, t: int)
    requires r <= t && Wall(off, t) < w <= Wall(off, r)
    ensures exists c :: r < c <= t && SetBackOver(off, w, c)
    decreases t - r
  {
    if Wall(off, t - 1) >= w {
      assert SetBackOver(off, w, t);
    } else {
      CrossingBetween(off, w, r, t - 1);
    }
  }

  /** An instant whose wall time is before `w` is before its instant exactly when no set-back over `w` came by then. */
  lemma BeforeInstantExactly(off: Offsets, w: int, t: int)
    requires OffsetsOk(off) && Wall(off, t) < w
    ensures t < InstantAt(off, w) <==> forall c :: c <= t ==> !SetBackOver(off, w, c)
  {
    var r := InstantAt(off, w);
    if r <= t {
      CrossingBetween(off, w, r, t);
    }
  }

  /** A set-back over `w` makes `w` occur twice. */
  lemma SetBackShowsTwice(off: Offsets, w: int, c: int)
    requires ZoneOk(off) && SetBackOver(off, w, c)
    ensures !AtMostOnce(off, w)
  {
    assert OneChangeAround(off, w);
    var change :| ChangesAt(off, w, change);
    InWindow(off, w, c);
    InWindow(off, w, c - 1);
    var first, again := w - off(w - DAY_MS), w - off(w + DAY_MS);
    assert first < c == change <= again;
    assert Wall(off, first) == w && Wall(off, again) == w;
  }

  lemma BeforeInstant(off: Offsets, w: int, t: int)
    requires ZoneOk(off) && AtMostOnce(off, w) && Wall(off, t) < w
    ensures t < InstantAt(off, w)
  {
    BeforeInstantExactly(off, w, t);
    forall c | c <= t
      ensures !SetBackOver(off, w, c)
    {
      if SetBackOver(off, w, c) {
        SetBackShowsTwice(off, w, c);
      }
    }
  }

  /** The range includes now exactly when no set-back over its end's wall time came by now. */
  lemma NowBeforeEndExactly(off: Offsets, last: string, bucket: Bucket, now: int)
    requires OffsetsOk(off) && !PassesTwoDigitYear(Wall(off, now), bucket)
    ensures now < ResolveRelativeRange(off, last, bucket, now).end
            <==> forall c :: c <= now ==> !SetBackOver(off, StartOfNextBucketWall(Wall(off, now), bucket), c)
  {
    NextIsLeast(bucket, Wall(off, now));
    StartOfNextByUtc(Wall(off, now), bucket);
    BeforeInstantExactly(off, StartOfNextBucketWall(Wall(off, now), bucket), now);
  }

  /** So it does whenever the end's wall time occurs at most once. */
  lemma NowBeforeEnd(off: Offsets, last: string, bucket: Bucket, now: int)
    requires ZoneOk(off) && !PassesTwoDigitYear(Wall(off, now), bucket)
    requires AtMostOnce(off, StartOfNextBucketWall(Wall(off, now), bucket))
    ensures now < ResolveRelativeRange(off, last, bucket, now).end
  {
    NextIsLeast(bucket, Wall(off, now));
    StartOfNextByUtc(Wall(off, now), bucket);
    BeforeInstant(off, StartOfNextBucketWall(Wall(off, now), bucket), now);
  }

  const SET_BACK: Offsets := t => if t < 0 then 2 * HOUR_MS else 0

  lemma SetBackIsZone()
    ensures ZoneOk(SET_BACK)
  {
    forall w
      ensures OneChangeAround(SET_BACK, w)
    {
      assert ChangesAt(SET_BACK, w, 0);
    }
  }

  /** An instance: the end is the first time it showed, before now. */
  lemma EndCanBePast(last: string, now: int)
    requires 0 <= now < HOUR_MS
    ensures ZoneOk(SET_BACK)
    ensures SetBackOver(SET_BACK, StartOfNextBucketWall(Wall(SET_BACK, now), Hour), 0)
    ensures ResolveRelativeRange(SET_BACK, last, Hour, now).end == -HOUR_MS < now
  {
    SetBackIsZone();
    HourEndsAt(now);
    assert FirstAt(SET_BACK, HOUR_MS, -HOUR_MS);
  }

  lemma HourEndsAt(w: int)
    requires 0 <= w < HOUR_MS
    ensures StartOfNextBucketWall(w, Hour) == HOUR_MS
  {
  }
}

/**
 * Wall times and instants in a time zone: `zoneFor` of relative-range.ts. A zone is its offset at
 * each instant, and a wall time is the instant plus the offset, in milliseconds.
 */
module Zones {
  import opened Common
  import opened Calendar

  type Offsets = int -> int

  /** Offsets are whole seconds of less than a day. */
  ghost predicate OffsetsOk(off: Offsets) {
    forall t :: -DAY_MS < off(t) < DAY_MS && off(t) % 1000 == 0
  }

  /** From a day before `w` to a day after, the offset changes at `change` or not at all. */
  ghost predicate ChangesAt(off: Offsets, w: int, change: int) {
    var lo, hi := w - DAY_MS, w + DAY_MS;
    forall t :: lo <= t <= hi ==> off(t) == if t < change then off(lo) else off(hi)
  }

  ghost predicate OneChangeAround(off: Offsets, w: int) {
    exists change :: ChangesAt(off, w, change)
  }

  ghost predicate ZoneOk(off: Offsets) {
    OffsetsOk(off) && forall w :: OneChangeAround(off, w)
  }

  function Wall(off: Offsets, t: int): int {
    t + off(t)
  }

  // ---- wallTimeOf: the zone's calendar fields, put back together by Date.UTC.

  datatype Kind = Literal | YearPart | MonthPart | DayPart | HourPart | MinutePart | SecondPart

  datatype Part = Part(kind: Kind, value: int)

  /** The field Intl prints for wall time `w`. */
  ghost function Field(w: int, kind: Kind): int {
    var d := DateOf(DayNumber(w));
    var seconds := TimeOfDay(w) / 1000;
    match kind
    case Literal => 0
    case YearPart => d.year
    case MonthPart => d.month + 1
    case DayPart => d.day
    case HourPart => seconds / 3600
    case MinutePart => seconds / 60 % 60
    case SecondPart => seconds % 60
  }

  /** formatToParts prints every field once, with literals between them. */
  ghost predicate Prints(parts: seq<Part>, w: int) {
    && (forall i :: 0 <= i < |parts| && !parts[i].kind.Literal? ==> parts[i].value == Field(w, parts[i].kind))
    && (forall k: Kind :: !k.Literal? ==> exists i :: 0 <= i < |parts| && parts[i].kind == k)
  }

  /** JavaScript's remainder takes the dividend's sign. */
  function Rem(a: int, b: int): int
    requires b > 0
  {
    if a >= 0 then a % b else -(-a % b)
  }

  lemma RemainderIs(x: int, q: int, r: int)
    requires x == 1000 * q + r && 0 <= r < 1000
    ensures x % 1000 == r
  {
  }

  lemma FloorRem(t: int)
    ensures Rem(Rem(t, 1000) + 1000, 1000) == t % 1000
  {
    if t >= 0 {
      RemainderIs(t % 1000 + 1000, 1, t % 1000);
    } else {
      var m, k := -t % 1000, -t / 1000;
      assert -t == 1000 * k + m;
      if m == 0 {
        RemainderIs(t, -k, 0);
      } else {
        RemainderIs(t, -k - 1, 1000 - m);
      }
    }
  }

  /** A wall time with its year as Date.UTC reads it. */
  ghost function ReadWall(w: int): int {
    var d := DateOf(DayNumber(w));
    DateUtc(d.year, d.month, d.day) + TimeOfDay(w)
  }

  lemma FieldsRebuild(w: int)
    ensures DateUtc(Field(w, YearPart), Field(w, MonthPart) - 1, Field(w, DayPart))
            + Field(w, HourPart) * 3_600_000 + Field(w, MinutePart) * 60_000 + Field(w, SecondPart) * 1000
         == ReadWall(w) - w % 1000
  {
    SecondsSplit(TimeOfDay(w));
    MillisOfDay(w);
  }

  lemma MillisOfDay(w: int)
    ensures TimeOfDay(w) % 1000 == w % 1000
  {
    assert w == DayNumber(w) * DAY_MS + TimeOfDay(w);
  }

  lemma ReadWallIs(w: int)
    ensures if TwoDigit(DateOf(DayNumber(w)).year) then ReadWall(w) > w else ReadWall(w) == w
  {
    UtcOfDate(DateOf(DayNumber(w)));
    assert w == DayNumber(w) * DAY_MS + TimeOfDay(w);
  }

  lemma SecondsSplit(time: int)
    requires 0 <= time < DAY_MS
    ensures var s := time / 1000;
            s / 3600 * 3_600_000 + s / 60 % 60 * 60_000 + s % 60 * 1000 == time - time % 1000
  {
    var s := time / 1000;
    assert s / 60 / 60 == s / 3600;
    assert s / 60 == s / 60 / 60 * 60 + s / 60 % 60;
  }

  lemma SameMilliseconds(off: Offsets, t: int)
    requires OffsetsOk(off)
    ensures Wall(off, t) % 1000 == t % 1000
  {
    var k := off(t) / 1000;
    assert off(t) == k * 1000 + off(t) % 1000;
  }

  /** Reassembling the printed fields gives the wall time exactly in the years Date.UTC reads as themselves. */
  method WallTimeOf(off: Offsets, t: int, parts: seq<Part>) returns (w: int)
    requires OffsetsOk(off) && Prints(parts, Wall(off, t))
    ensures w == ReadWall(Wall(off, t))
    ensures w == Wall(off, t) <==> !TwoDigit(DateOf(DayNumber(Wall(off, t))).year)
  {
    var fields: map<Kind, int> := map[];
    var n := 0;
    while n < |parts|
      invariant 0 <= n <= |parts|
      invariant forall k :: k in fields ==> fields[k] == Field(Wall(off, t), k)
      invariant forall i :: 0 <= i < n && !parts[i].kind.Literal? ==> parts[i].kind in fields
    {
      if !parts[n].kind.Literal? {
        fields := fields[parts[n].kind := parts[n].value];
      }
      n := n + 1;
    }
    assert forall k: Kind :: !k.Literal? ==> k in fields;
    var wholeSeconds := DateUtc(fields[YearPart], fields[MonthPart] - 1, fields[DayPart])
                        + fields[HourPart] * 3_600_000 + fields[MinutePart] * 60_000 + fields[SecondPart] * 1000;
    w := wholeSeconds + Rem(Rem(t, 1000) + 1000, 1000);
    FloorRem(t);
    SameMilliseconds(off, t);
    FieldsRebuild(Wall(off, t));
    ReadWallIs(Wall(off, t));
  }

  // ---- instantOf

  /** The first instant at which the clock shows `w` or later. */
  ghost predicate FirstAt(off: Offsets, w: int, r: int) {
    Wall(off, r) >= w && forall t :: t < r ==> Wall(off, t) < w
  }

  lemma FirstUnique(off: Offsets, w: int, r: int, q: int)
    requires FirstAt(off, w, r) && FirstAt(off, w, q)
    ensures r == q
  {
  }

  lemma {:induction false} FirstExists(off: Offsets, w: int, from: int)
    requires OffsetsOk(off) && from <= w + DAY_MS
    requires forall t :: t < from ==> Wall(off, t) < w
    ensures exists r :: FirstAt(off, w, r)
    decreases w + DAY_MS - from
  {
    if Wall(off, from) >= w {
      assert FirstAt(off, w, from);
    } else {
      FirstExists(off, w, from + 1);
    }
  }

  ghost function InstantAt(off: Offsets, w: int): (r: int)
    requires OffsetsOk(off)
    ensures FirstAt(off, w, r)
  {
    FirstExists(off, w, w - DAY_MS);
    var r :| FirstAt(off, w, r);
    r
  }

  /** Every instant whose wall time is near `w` lies in the window. */
  lemma InWindow(off: Offsets, w: int, t: int)
    requires OffsetsOk(off)
    ensures Wall(off, t) == w ==> w - DAY_MS < t < w + DAY_MS
    ensures t <= w - DAY_MS ==> Wall(off, t) < w
    ensures t >= w + DAY_MS ==> Wall(off, t) > w
  {
  }

  lemma FirstBefore(off: Offsets, w: int, change: int, r: int)
    requires OffsetsOk(off) && ChangesAt(off, w, change)
    requires Wall(off, r) >= w && w - DAY_MS < r < w + DAY_MS
    requires forall t :: w - DAY_MS < t < r ==> Wall(off, t) < w
    ensures FirstAt(off, w, r)
  {
    forall t | t < r
      ensures Wall(off, t) < w
    {
      InWindow(off, w, t);
    }
  }

  /** Two candidates, then a binary search for the moment the clocks moved. */
  method InstantOf(off: Offsets, w: int) returns (r: int)
    requires ZoneOk(off)
    ensures r == InstantAt(off, w)
  {
    assert OneChangeAround(off, w);
    ghost var change :| ChangesAt(off, w, change);
    var c1 := w - (Wall(off, w - DAY_MS) - (w - DAY_MS));
    var c2 := w - (Wall(off, w + DAY_MS) - (w + DAY_MS));
    assert c1 == w - off(w - DAY_MS) && c2 == w - off(w + DAY_MS);
    var matches := (if Wall(off, c1) == w then [c1] else []) + (if Wall(off, c2) == w then [c2] else []);
    if |matches| > 0 {
      r := if |matches| == 2 then Min(matches[0], matches[1]) else matches[0];
      FirstBefore(off, w, change, r);
      FirstUnique(off, w, r, InstantAt(off, w));
      return;
    }
    var before := Min(c1, c2);
    var after := Max(c1, c2);
    var offsetAfter := Wall(off, after) - after;
    assert before == c2 && after == c1;
    while after - before > 1
      invariant c2 <= before < change <= after <= c1
      invariant offsetAfter == off(w + DAY_MS) != off(w - DAY_MS)
      decreases after - before
    {
      var middle := before + (after - before) / 2;
      if Wall(off, middle) - middle == offsetAfter {
        after := middle;
      } else {
        before := middle;
      }
    }
    r := after;
    FirstBefore(off, w, change, r);
    FirstUnique(off, w, r, InstantAt(off, w));
  }

  /** The least instant with this wall time, when there is one. */
  lemma InstantAtIsLeastPreimage(off: Offsets, w: int, t: int)
    requires ZoneOk(off) && Wall(off, t) == w
    ensures Wall(off, InstantAt(off, w)) == w && InstantAt(off, w) <= t
  {
    var r := InstantAt(off, w);
    assert OneChangeAround(off, w);
    var change :| ChangesAt(off, w, change);
    InWindow(off, w, t);
    InWindow(off, w, r);
    assert Wall(off, r - 1) < w;
    assert r <= t;
  }

  /** A wall time the clocks skip is the instant they moved, and only that. */
  lemma InstantAtIsTheChange(off: Offsets, w: int)
    requires ZoneOk(off) && forall t :: Wall(off, t) != w
    ensures var r := InstantAt(off, w);
            off(r) != off(r - 1) && Wall(off, r - 1) < w < Wall(off, r)
            && forall t :: w - DAY_MS < t <= w + DAY_MS && off(t) != off(t - 1) ==> t == r
  {
    var r := InstantAt(off, w);
    assert OneChangeAround(off, w);
    var change :| ChangesAt(off, w, change);
    InWindow(off, w, r);
    InWindow(off, w, r - 1);
    assert Wall(off, r - 1) < w < Wall(off, r);
    assert r - 1 < change <= r;
  }

  lemma InstantAtMonotone(off: Offsets, v: int, w: int)
    requires OffsetsOk(off) && v <= w
    ensures InstantAt(off, v) <= InstantAt(off, w)
  {
    var r, q := InstantAt(off, v), InstantAt(off, w);
    assert q < r ==> Wall(off, q) < v;
  }

  // ---- A zone as its table of changes.

  datatype Change = Change(at: int, offset: int)

  function TableOffset(initial: int, changes: seq<Change>, t: int): int {
    if changes == [] then initial
    else if changes[|changes| - 1].at <= t then changes[|changes| - 1].offset
    else TableOffset(initial, changes[..|changes| - 1], t)
  }

  ghost predicate TableOk(initial: int, changes: seq<Change>) {
    && -DAY_MS < initial < DAY_MS && initial % 1000 == 0
    && (forall i :: 0 <= i < |changes| ==> -DAY_MS < changes[i].offset < DAY_MS && changes[i].offset % 1000 == 0)
    && (forall i, j :: 0 <= i < j < |changes| ==> changes[i].at + 2 * DAY_MS < changes[j].at)
  }

  /** The offset of a table is that of its last change by then, and the initial one before them all. */
  lemma {:induction false} TableOffsetIs(initial: int, changes: seq<Change>, t: int)
    requires TableOk(initial, changes)
    ensures (forall i :: 0 <= i < |changes| ==> t < changes[i].at) ==> TableOffset(initial, changes, t) == initial
    ensures forall i :: 0 <= i < |changes| && changes[i].at <= t && (i + 1 < |changes| ==> t < changes[i + 1].at) ==>
              TableOffset(initial, changes, t) == changes[i].offset
  {
    if changes != [] {
      TableOffsetIs(initial, changes[..|changes| - 1], t);
    }
  }

  lemma TableOffsetInRange(initial: int, changes: seq<Change>, t: int)
    requires TableOk(initial, changes)
    ensures -DAY_MS < TableOffset(initial, changes, t) < DAY_MS && TableOffset(initial, changes, t) % 1000 == 0
  {
    if changes != [] {
      TableOffsetInRange(initial, changes[..|changes| - 1], t);
    }
  }

  lemma {:induction false} TableConstant(initial: int, changes: seq<Change>, s: int, t: int)
    requires TableOk(initial, changes) && s <= t
    requires forall i :: 0 <= i < |changes| ==> !(s < changes[i].at <= t)
    ensures TableOffset(initial, changes, s) == TableOffset(initial, changes, t)
  {
    if changes != [] {
      TableConstant(initial, changes[..|changes| - 1], s, t);
    }
  }

  /** Every table whose changes are more than two days apart is such a zone. */
  lemma TableIsZone(initial: int, changes: seq<Change>)
    requires TableOk(initial, changes)
    ensures ZoneOk(t => TableOffset(initial, changes, t))
  {
    var off := t => TableOffset(initial, changes, t);
    forall t
      ensures -DAY_MS < off(t) < DAY_MS && off(t) % 1000 == 0
    {
      TableOffsetInRange(initial, changes, t);
    }
    forall w
      ensures OneChangeAround(off, w)
    {
      var lo, hi := w - DAY_MS, w + DAY_MS;
      var change := lo;
      if i :| 0 <= i < |changes| && lo < changes[i].at <= hi {
        change := changes[i].at;
      }
      forall t | lo <= t <= hi
        ensures off(t) == if t < change then off(lo) else off(hi)
      {
        if t < change {
          TableConstant(initial, changes, lo, t);
        } else {
          TableConstant(initial, changes, t, hi);
        }
      }
      assert ChangesAt(off, w, change);
    }
  }
}

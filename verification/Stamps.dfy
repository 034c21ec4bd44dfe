/**
  Timestamps and the calendar year they fall in.

  A stamp is a wall-clock reading in microseconds since 1970, with its offset from UTC
  when it carries one. A naive stamp is read as UTC, as the store and the bar filter do.
*/
module Stamps {
  import opened Options

  datatype Stamp = Stamp(wall: int, offset: Option<int>)

  function Utc(t: Stamp): int {
    if t.offset.Some? then t.wall - t.offset.value else t.wall
  }

  /** How far a wall clock is ahead of UTC; one without an offset is taken to be at it. */
  function OffsetOf(t: Stamp): int {
    if t.offset.Some? then t.offset.value else 0
  }

  /** The instant a wall clock shows, given how far it is ahead of UTC. */
  ghost function Instant(t: Stamp): int { t.wall - OffsetOf(t) }

  /** An instant is its wall clock less how far that is ahead: two readings of one instant agree on it. */
  lemma UtcIsInstant(t: Stamp, u: Stamp)
    ensures Utc(t) + OffsetOf(t) == t.wall
    ensures Utc(t) == Utc(u) <==> t.wall - u.wall == OffsetOf(t) - OffsetOf(u)
  {
  }

  const MICROS_PER_DAY := 86_400_000_000

  /** Days from 1 January of year 1 to 1 January of `year`, in the Gregorian calendar. */
  function DaysBefore(year: int): int {
    var y := year - 1;
    365 * y + y / 4 - y / 100 + y / 400
  }

  predicate Leap(year: int) {
    year % 4 == 0 && (year % 100 != 0 || year % 400 == 0)
  }

  lemma DivStep4(y: int)
    ensures y / 4 - (y - 1) / 4 == if y % 4 == 0 then 1 else 0
  {
  }

  lemma DivStep100(y: int)
    ensures y / 100 - (y - 1) / 100 == if y % 100 == 0 then 1 else 0
  {
  }

  lemma DivStep400(y: int)
    ensures y / 400 - (y - 1) / 400 == if y % 400 == 0 then 1 else 0
  {
  }

  lemma Multiple100(y: int)
    ensures y % 400 == 0 ==> y % 100 == 0
  {
    var q := y / 400;
    assert y % 400 == 0 ==> y == 100 * (4 * q);
  }

  lemma Multiple4(y: int)
    ensures y % 100 == 0 ==> y % 4 == 0
  {
    var q := y / 100;
    assert y % 100 == 0 ==> y == 4 * (25 * q);
  }

  lemma YearLength(year: int)
    ensures DaysBefore(year + 1) - DaysBefore(year) == if Leap(year) then 366 else 365
  {
    DivStep4(year);
    DivStep100(year);
    DivStep400(year);
    Multiple100(year);
    Multiple4(year);
  }

  lemma {:induction false} YearsInOrder(a: int, b: int)
    requires a < b
    ensures DaysBefore(a) < DaysBefore(b)
    decreases b - a
  {
    YearLength(b - 1);
    if a < b - 1 { YearsInOrder(a, b - 1); }
  }

  /** The year holding `day`, found upwards from a year known to start by then. */
  function YearFrom(day: int, year: int): (y: int)
    requires DaysBefore(year) <= day
    ensures DaysBefore(y) <= day < DaysBefore(y + 1)
    decreases day - DaysBefore(year)
  {
    YearLength(year);
    if day < DaysBefore(year + 1) then year else YearFrom(day, year + 1)
  }

  const EPOCH_DAY := 719_162

  /** Days from 1 January of year 1 to the UTC day of an instant. */
  function DayOf(ts: int): int {
    ts / MICROS_PER_DAY + EPOCH_DAY
  }

  /** The UTC calendar year of an instant. */
  function Year(ts: int): (y: int)
    ensures DaysBefore(y) <= DayOf(ts) < DaysBefore(y + 1)
  {
    var day := DayOf(ts);
    YearFrom(day, if day >= 0 then day / 366 + 1 else day / 365 + 1)
  }

  lemma DayMonotone(s: int, t: int)
    requires s <= t
    ensures DayOf(s) <= DayOf(t)
  {
  }

  /** Years that bracket days in order are in order. */
  lemma BracketsInOrder(a: int, b: int, day: int, later: int)
    requires DaysBefore(a) <= day <= later < DaysBefore(b + 1)
    ensures a <= b
  {
    if b + 1 < a { YearsInOrder(b + 1, a); }
  }

  /** Year pruning rests on this: a later instant is never in an earlier year. */
  lemma YearMonotone(s: int, t: int)
    requires s <= t
    ensures Year(s) <= Year(t)
  {
    DayMonotone(s, t);
    BracketsInOrder(Year(s), Year(t), DayOf(s), DayOf(t));
  }

  /** No other year brackets the day: the year is determined by the calendar alone. */
  lemma YearIs(ts: int, y: int)
    requires DaysBefore(y) <= DayOf(ts) < DaysBefore(y + 1)
    ensures Year(ts) == y
  {
    BracketsInOrder(Year(ts), y, DayOf(ts), DayOf(ts));
    BracketsInOrder(y, Year(ts), DayOf(ts), DayOf(ts));
  }

  /** Where the calendar is anchored: the count of microseconds starts with 1970. */
  lemma EpochIs1970()
    ensures Year(0) == 1970 && Year(-1) == 1969
  {
    YearIs(0, 1970);
    YearIs(-1, 1969);
  }
}

/**
 * UTC wall-clock readings as Python's `datetime` holds them: a proleptic
 * Gregorian date and a time of day, in whole seconds. Differences are taken
 * as CPython does, through day ordinals (day 1 is 0001-01-01).
 */
module CivilTime {

  datatype UtcTime = UtcTime(year: int, month: int, day: int, hour: int, minute: int, second: int)

  predicate IsLeapYear(y: int) { y % 4 == 0 && (y % 100 != 0 || y % 400 == 0) }

  /** The length of month `m` of year `y`: the gap between consecutive month starts, the year's length for December. */
  function DaysInMonth(y: int, m: int): (n: int)
    requires 1 <= m <= 12
    ensures 28 <= n <= 31
    ensures m < 12 ==> DaysBeforeMonth(y, m) + n == DaysBeforeMonth(y, m + 1)
    ensures m == 12 ==> DaysBeforeMonth(y, m) + n == if IsLeapYear(y) then 366 else 365
  {
    if m == 2 then (if IsLeapYear(y) then 29 else 28)
    else if m == 4 || m == 6 || m == 9 || m == 11 then 30
    else 31
  }

  /** The field ranges `datetime` enforces (years 1 to 9999). */
  predicate IsValid(t: UtcTime) {
    1 <= t.year <= 9999 && 1 <= t.month <= 12 && 1 <= t.day <= DaysInMonth(t.year, t.month)
    && 0 <= t.hour < 24 && 0 <= t.minute < 60 && 0 <= t.second < 60
  }

  /** A clock reading; every `datetime` the source obtains is one. */
  type Instant = t: UtcTime | IsValid(t) witness UtcTime(1970, 1, 1, 0, 0, 0)

  const UnixEpoch: Instant := UtcTime(1970, 1, 1, 0, 0, 0)

  function DaysBeforeMonth(y: int, m: int): int
    requires 1 <= m <= 12
  {
    var common :=
      if m == 1 then 0 else if m == 2 then 31 else if m == 3 then 59 else if m == 4 then 90
      else if m == 5 then 120 else if m == 6 then 151 else if m == 7 then 181 else if m == 8 then 212
      else if m == 9 then 243 else if m == 10 then 273 else if m == 11 then 304 else 334;
    if m > 2 && IsLeapYear(y) then common + 1 else common
  }

  /** Day number of the date, 0001-01-01 being day 1. */
  function Ordinal(t: Instant): int {
    var y := t.year - 1;
    365 * y + y / 4 - y / 100 + y / 400 + DaysBeforeMonth(t.year, t.month) + t.day
  }

  /** Seconds since 1970-01-01T00:00:00 UTC (negative before it). */
  function EpochSeconds(t: Instant): int {
    (Ordinal(t) - Ordinal(UnixEpoch)) * 86400 + t.hour * 3600 + t.minute * 60 + t.second
  }

  /** `(later - earlier).total_seconds()` in whole seconds. */
  function ElapsedSeconds(earlier: Instant, later: Instant): (r: int)
    // within one day, elapsed time is the difference of the times of day
    ensures SameDate(earlier, later) ==>
      r == (later.hour - earlier.hour) * 3600 + (later.minute - earlier.minute) * 60 + (later.second - earlier.second)
  {
    EpochSeconds(later) - EpochSeconds(earlier)
  }

  predicate SameDate(a: UtcTime, b: UtcTime) {
    a.year == b.year && a.month == b.month && a.day == b.day
  }

  /** A POSIX timestamp splits into whole days since the epoch and the time of day. */
  lemma EpochDayAndTime(t: Instant)
    ensures EpochSeconds(t) / 86400 == Ordinal(t) - Ordinal(UnixEpoch)
    ensures EpochSeconds(t) % 86400 == t.hour * 3600 + t.minute * 60 + t.second
  {
  }

  lemma UnixEpochIsZero()
    ensures EpochSeconds(UnixEpoch) == 0 && Ordinal(UnixEpoch) == 719163
  {
  }
}

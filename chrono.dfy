/**
 * Time as the source uses Go's `time` package. An instant is an integer
 * count of nanoseconds since 1970-01-01 00:00 UTC; a `time.Duration` is an
 * int64 count of nanoseconds. Civil dates follow the proleptic Gregorian
 * calendar, as Go's do.
 */
module Chrono {
  import opened Num

  const Second: int := 1_000_000_000
  const Minute: int := 60 * Second
  const Hour: int := 60 * Minute
  const Day: int := 24 * Hour

  /** Seconds from Go's zero time (January 1, year 1, UTC) to the Unix epoch. */
  const ZeroToUnix: int := 62_135_596_800 * Second

  predicate IsLeap(y: int) { y % 4 == 0 && (y % 100 != 0 || y % 400 == 0) }

  function YearLength(y: int): int { if IsLeap(y) then 366 else 365 }

  function MonthLength(y: int, m: int): (n: int)
    requires 1 <= m <= 12
    ensures 28 <= n <= 31
  {
    if m == 2 then (if IsLeap(y) then 29 else 28)
    else if m == 4 || m == 6 || m == 9 || m == 11 then 30
    else 31
  }

  /** Days of year `y` before the first of month `m` (13 = the year's end). */
  function DaysBeforeMonth(y: int, m: int): int
    requires 1 <= m <= 13
  {
    var common :=
      if m == 1 then 0 else if m == 2 then 31 else if m == 3 then 59
      else if m == 4 then 90 else if m == 5 then 120 else if m == 6 then 151
      else if m == 7 then 181 else if m == 8 then 212 else if m == 9 then 243
      else if m == 10 then 273 else if m == 11 then 304 else if m == 12 then 334
      else 365;
    if m > 2 && IsLeap(y) then common + 1 else common
  }

  lemma MonthStep(y: int, m: int)
    requires 1 <= m <= 12
    ensures DaysBeforeMonth(y, m + 1) == DaysBeforeMonth(y, m) + MonthLength(y, m)
    ensures DaysBeforeMonth(y, 13) == YearLength(y) && DaysBeforeMonth(y, 1) == 0
  {
  }

  /** Number of leap years among years 1..n (for n >= 0), extended to all n. */
  function Leaps(n: int): int { n / 4 - n / 100 + n / 400 }

  /** Days from 1970-01-01 to January 1 of year `y`. */
  function DaysBeforeYear(y: int): int
  {
    365 * (y - 1970) + Leaps(y - 1) - Leaps(1969)
  }

  lemma DivStep4(n: int)
    ensures n / 4 - (n - 1) / 4 == if n % 4 == 0 then 1 else 0
  {
  }

  lemma DivStep100(n: int)
    ensures n / 100 - (n - 1) / 100 == if n % 100 == 0 then 1 else 0
  {
  }

  lemma DivStep400(n: int)
    ensures n / 400 - (n - 1) / 400 == if n % 400 == 0 then 1 else 0
  {
  }

  /** The leap years among 1..y and among 1..y-1 differ by whether `y`
      is a multiple of 4, 100 and 400. */
  lemma LeapsStep(y: int)
    ensures Leaps(y) - Leaps(y - 1) ==
      (if y % 4 == 0 then 1 else 0) - (if y % 100 == 0 then 1 else 0) + (if y % 400 == 0 then 1 else 0)
  {
    DivStep4(y);
    DivStep100(y);
    DivStep400(y);
  }

  lemma MultipleChain(y: int)
    ensures y % 400 == 0 ==> y % 100 == 0
    ensures y % 100 == 0 ==> y % 4 == 0
  {
  }

  lemma YearStep(y: int)
    ensures DaysBeforeYear(y + 1) == DaysBeforeYear(y) + YearLength(y)
  {
    LeapsStep(y);
    MultipleChain(y);
  }

  lemma {:induction false} YearsOrdered(y1: int, y2: int)
    requires y1 < y2
    ensures DaysBeforeYear(y1) + YearLength(y1) <= DaysBeforeYear(y2)
    decreases y2 - y1
  {
    YearStep(y1);
    if y1 + 1 < y2 {
      YearsOrdered(y1 + 1, y2);
    }
  }

  predicate ValidDate(y: int, m: int, d: int)
  {
    1 <= m <= 12 && 1 <= d <= MonthLength(y, m)
  }

  /** Days since 1970-01-01 of a date; like Go's `time.Date`, a day outside
      the month normalises into a neighbouring month. */
  function DaysFromCivil(y: int, m: int, d: int): int
    requires 1 <= m <= 12
  {
    DaysBeforeYear(y) + DaysBeforeMonth(y, m) + d - 1
  }

  datatype Civil = Civil(year: int, month: int, day: int)

  /** Year containing day `z` counted from January 1 of year `y`. */
  function FindYear(y: int, z: int): (r: (int, int))
    ensures 0 <= r.1 < YearLength(r.0)
    ensures DaysBeforeYear(r.0) + r.1 == DaysBeforeYear(y) + z
    decreases if z < 0 then 1 else 0, if z < 0 then -z else z
  {
    YearStep(y - 1);
    YearStep(y);
    if z < 0 then FindYear(y - 1, z + YearLength(y - 1))
    else if z >= YearLength(y) then FindYear(y + 1, z - YearLength(y))
    else (y, z)
  }

  /** Month containing day-of-year `doy`, searching from month `m`. */
  function FindMonth(y: int, doy: int, m: int): (r: int)
    requires 1 <= m <= 12 && DaysBeforeMonth(y, m) <= doy < YearLength(y)
    ensures m <= r <= 12
    ensures DaysBeforeMonth(y, r) <= doy < DaysBeforeMonth(y, r + 1)
    decreases 12 - m
  {
    if m == 12 || doy < DaysBeforeMonth(y, m + 1) then m else FindMonth(y, doy, m + 1)
  }

  /** The civil date of day `z` since 1970-01-01. */
  function CivilFromDays(z: int): (c: Civil)
    ensures ValidDate(c.year, c.month, c.day)
    ensures DaysFromCivil(c.year, c.month, c.day) == z
  {
    var (y, doy) := FindYear(1970, z);
    var m := FindMonth(y, doy, 1);
    MonthStep(y, m);
    Civil(y, m, doy - DaysBeforeMonth(y, m) + 1)
  }

  lemma YearOfDay(y1: int, d1: int, y2: int, d2: int)
    requires 0 <= d1 < YearLength(y1) && 0 <= d2 < YearLength(y2)
    requires DaysBeforeYear(y1) + d1 == DaysBeforeYear(y2) + d2
    ensures y1 == y2 && d1 == d2
  {
    if y1 < y2 { YearsOrdered(y1, y2); }
    if y2 < y1 { YearsOrdered(y2, y1); }
  }

  lemma {:induction false} MonthsOrdered(y: int, m1: int, m2: int)
    requires 1 <= m1 < m2 <= 13
    ensures DaysBeforeMonth(y, m1 + 1) <= DaysBeforeMonth(y, m2)
    decreases m2 - m1
  {
    if m1 + 1 < m2 {
      MonthsOrdered(y, m1 + 1, m2);
    }
  }

  /** A valid date is the date of its own day number, and nothing else is. */
  lemma CivilRoundTrip(y: int, m: int, d: int)
    requires ValidDate(y, m, d)
    ensures CivilFromDays(DaysFromCivil(y, m, d)) == Civil(y, m, d)
  {
    var c := CivilFromDays(DaysFromCivil(y, m, d));
    MonthStep(y, m);
    MonthStep(c.year, c.month);
    MonthStep(y, 12);
    MonthStep(c.year, 12);
    if m < 12 { MonthsOrdered(y, m, 13); }
    if c.month < 12 { MonthsOrdered(c.year, c.month, 13); }
    YearOfDay(y, DaysBeforeMonth(y, m) + d - 1,
              c.year, DaysBeforeMonth(c.year, c.month) + c.day - 1);
    if m < c.month { MonthsOrdered(y, m, c.month); }
    if c.month < m { MonthsOrdered(y, c.month, m); }
  }

  /** Day number (since 1970-01-01 UTC) and time of day of an instant. */
  function DayOf(t: int): int { t / Day }

  function TimeOfDay(t: int): (n: int)
    ensures 0 <= n < Day
    ensures t == DayOf(t) * Day + n
  {
    t % Day
  }

  function DateOf(t: int): Civil { CivilFromDays(DayOf(t)) }

  /** An int64 duration: `Time.Sub` clamps to this range. */
  function Saturate(d: int): (r: int)
    ensures IsInt64(r)
    ensures IsInt64(d) ==> r == d
  {
    if d < Int64Min then Int64Min else if d > Int64Max then Int64Max else d
  }

  /** `t2.Sub(t1)`. */
  function SubTime(t2: int, t1: int): (d: int)
    ensures IsInt64(d)
  {
    Saturate(t2 - t1)
  }

  /** `Duration.Truncate(m)`: rounds toward zero to a multiple of `m`. */
  function TruncateDuration(d: int, m: int): int
  {
    if m <= 0 then d else d - Rem(d, m)
  }

  /** `Duration.Round(m)`: nearest multiple of `m`, halves away from zero,
      clamping to the int64 range on overflow. */
  function RoundDuration(d: int, m: int): (r: int)
    requires IsInt64(d)
    ensures IsInt64(r)
  {
    if m <= 0 then d
    else
      QuoRemSpec(d, m);
      if d < 0 then
        var r := -Rem(d, m);
        if r + r < m then d + r
        else if IsInt64(d - m + r) then d - m + r
        else Int64Min
      else
        var r := Rem(d, m);
        if r + r < m then d - r
        else if IsInt64(d + m - r) then d + m - r
        else Int64Max
  }

  /** `Duration.Hours()`, as an exact real. */
  function Hours(d: int): real { d as real / Hour as real }

  /** `Time.Truncate(d)`: rounds down to a multiple of `d` counted from Go's
      zero time, not from the Unix epoch; `d <= 0` leaves `t` as it is. */
  function TruncateTime(t: int, d: int): (r: int)
    ensures d > 0 ==> r <= t < r + d
    ensures d <= 0 ==> r == t
  {
    if d <= 0 then t else t - (t + ZeroToUnix) % d
  }

  /** `time.Unix(t.Unix(), 0)`: drops the fraction of a second. */
  function WholeSeconds(t: int): (r: int)
    ensures r % Second == 0 && r <= t < r + Second
  {
    t - t % Second
  }
}

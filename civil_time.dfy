/**
 * A fixed calendar for the model: time is an integer number of seconds since
 * 1970-01-01T00:00:00, read in the proleptic Gregorian calendar with no time
 * zone or daylight-saving offset. It plays the part of `Calendar.current`.
 */
module CivilTime {

  const SecondsPerMinute: int := 60
  const SecondsPerHour: int := 3600
  const SecondsPerDay: int := 86400

  /** Days since 1970-01-01 (floor division, so times before 1970 fall on negative days). */
  function DayNumber(t: int): int {
    t / SecondsPerDay
  }

  /** Seconds elapsed since midnight. */
  function SecondOfDay(t: int): (s: int)
    ensures 0 <= s < SecondsPerDay
    ensures t == DayNumber(t) * SecondsPerDay + s
  {
    t % SecondsPerDay
  }

  function Hour(t: int): (h: int)
    ensures 0 <= h < 24
  {
    SecondOfDay(t) / SecondsPerHour
  }

  function Minute(t: int): (m: int)
    ensures 0 <= m < 60
  {
    SecondOfDay(t) % SecondsPerHour / SecondsPerMinute
  }

  function Second(t: int): (s: int)
    ensures 0 <= s < 60
  {
    SecondOfDay(t) % SecondsPerMinute
  }

  /** The weekday numbered as Foundation's Gregorian calendar does: 1 is Sunday, 7 is Saturday. */
  function Weekday(t: int): (w: int)
    ensures 1 <= w <= 7
  {
    // 1970-01-01 was a Thursday (weekday 5).
    (DayNumber(t) + 4) % 7 + 1
  }

  /** The moment at which the day of `t` begins. */
  function StartOfDay(t: int): (s: int)
    ensures s <= t < s + SecondsPerDay
    ensures DayNumber(s) == DayNumber(t) && SecondOfDay(s) == 0
  {
    DayNumber(t) * SecondsPerDay
  }

  /**
   * `date(bySettingHour: h, minute: m, second: s, of: t)`: the same calendar day
   * as `t`, at the given time of day.
   */
  function AtTimeOfDay(t: int, h: int, m: int, s: int): (r: int)
    requires 0 <= h < 24 && 0 <= m < 60 && 0 <= s < 60
    ensures DayNumber(r) == DayNumber(t)
    ensures Hour(r) == h && Minute(r) == m && Second(r) == s
  {
    StartOfDay(t) + h * SecondsPerHour + m * SecondsPerMinute + s
  }

  // ---------------------------------------------------------------------------
  // Days and civil dates
  // ---------------------------------------------------------------------------

  datatype CivilDate = CivilDate(year: int, month: int, day: int)

  predicate IsLeapYear(y: int) {
    y % 4 == 0 && (y % 100 != 0 || y % 400 == 0)
  }

  /** The number of days in month `m` of year `y` (`range(of: .day, in: .month, for:)`). */
  function MonthLength(y: int, m: int): (n: int)
    requires 1 <= m <= 12
    ensures 28 <= n <= 31
  {
    if m == 2 then (if IsLeapYear(y) then 29 else 28)
    else if m == 4 || m == 6 || m == 9 || m == 11 then 30
    else 31
  }

  /** The civil date of day number `z` (days since 1970-01-01). */
  function CivilFromDays(z: int): (c: CivilDate)
    ensures 1 <= c.month <= 12 && 1 <= c.day <= 31
  {
    var z' := z + 719468;
    var era := z' / 146097;
    var doe := z' - era * 146097;                                   // day of era, 0..146096
    var yoe := (doe - doe / 1460 + doe / 36524 - doe / 146096) / 365; // year of era, 0..399
    var doy := doe - (365 * yoe + yoe / 4 - yoe / 100);               // day of year from March 1st
    var mp := (5 * doy + 2) / 153;                                   // month from March, 0..11
    var d := doy - (153 * mp + 2) / 5 + 1;
    var m := if mp < 10 then mp + 3 else mp - 9;
    CivilDate(yoe + era * 400 + (if m <= 2 then 1 else 0), m, d)
  }

  /** The day number of the civil date `y`-`m`-`d`. */
  function DaysFromCivil(y: int, m: int, d: int): int
    requires 1 <= m <= 12
  {
    var y' := if m <= 2 then y - 1 else y;
    var era := y' / 400;
    var yoe := y' - era * 400;
    var mp := if m > 2 then m - 3 else m + 9;
    var doy := (153 * mp + 2) / 5 + d - 1;
    var doe := yoe * 365 + yoe / 4 - yoe / 100 + doy;
    era * 146097 + doe - 719468
  }

  function Year(t: int): int { CivilFromDays(DayNumber(t)).year }
  function Month(t: int): int { CivilFromDays(DayNumber(t)).month }
  function Day(t: int): int { CivilFromDays(DayNumber(t)).day }
}

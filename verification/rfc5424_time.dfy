/**
 * The part of java.time the canonical syslog parser relies on: building a
 * `ZoneOffset` from hours and minutes and an `OffsetDateTime` from its
 * fields. Both throw a `DateTimeException` on out-of-range fields; here they
 * answer `None` instead.
 */
module Rfc5424Time {
  import opened Bytes

  /** An `OffsetDateTime`: ISO calendar fields and the offset in seconds east of UTC. */
  datatype DateTime = DateTime(year: int, month: int, day: int,
                               hour: int, minute: int, second: int, nano: int,
                               offsetSeconds: int)

  const MAX_YEAR := 999_999_999
  const MAX_OFFSET_HOURS := 18

  /** Leap years of the proleptic ISO calendar. */
  predicate IsLeap(year: int)
  {
    year % 4 == 0 && (year % 100 != 0 || year % 400 == 0)
  }

  function MonthLength(year: int, month: int): (n: int)
    requires 1 <= month <= 12
    ensures 28 <= n <= 31
  {
    if month == 2 then (if IsLeap(year) then 29 else 28)
    else if month == 4 || month == 6 || month == 9 || month == 11 then 30
    else 31
  }

  /**
   * `ZoneOffset.ofHoursMinutes(hours, minutes)`: the total offset in seconds,
   * or `None` where java.time throws (hours beyond 18, minutes beyond 59,
   * hours and minutes of opposite signs, or minutes together with 18 hours).
   */
  function OffsetOf(hours: int, minutes: int): (r: Option<int>)
    ensures r.Some? ==> -MAX_OFFSET_HOURS * 3600 <= r.value <= MAX_OFFSET_HOURS * 3600
    ensures r.Some? ==> r.value % 60 == 0
  {
    if hours < -MAX_OFFSET_HOURS || hours > MAX_OFFSET_HOURS then None
    else if hours > 0 && minutes < 0 then None
    else if hours < 0 && minutes > 0 then None
    else if minutes < -59 || minutes > 59 then None
    else if (hours == MAX_OFFSET_HOURS || hours == -MAX_OFFSET_HOURS) && minutes != 0 then None
    else Some(hours * 3600 + minutes * 60)
  }

  /**
   * `OffsetDateTime.of(year, month, day, hour, minute, second, nano, offset)`,
   * or `None` where `LocalDate.of` or `LocalTime.of` throws.
   */
  function DateTimeOf(year: int, month: int, day: int, hour: int, minute: int,
                      second: int, nano: int, offsetSeconds: int): (r: Option<DateTime>)
    ensures r.Some? ==> r.value.year == year && r.value.month == month && r.value.day == day
    ensures r.Some? ==> r.value.hour == hour && r.value.minute == minute
                        && r.value.second == second && r.value.nano == nano
                        && r.value.offsetSeconds == offsetSeconds
  {
    if year < -MAX_YEAR || year > MAX_YEAR then None
    else if month < 1 || month > 12 then None
    else if day < 1 || day > 31 then None
    else if day > 28 && day > MonthLength(year, month) then None
    else if hour < 0 || hour > 23 then None
    else if minute < 0 || minute > 59 then None
    else if second < 0 || second > 59 then None
    else if nano < 0 || nano > 999_999_999 then None
    else Some(DateTime(year, month, day, hour, minute, second, nano, offsetSeconds))
  }

  /** A date-time is a real instant of the ISO calendar. */
  predicate ValidDateTime(d: DateTime)
  {
    && -MAX_YEAR <= d.year <= MAX_YEAR
    && 1 <= d.month <= 12
    && 1 <= d.day <= MonthLength(d.year, d.month)
    && 0 <= d.hour < 24 && 0 <= d.minute < 60 && 0 <= d.second < 60
    && 0 <= d.nano < 1_000_000_000
  }

  /** Construction succeeds exactly for the valid date-times. */
  lemma DateTimeOfValid(year: int, month: int, day: int, hour: int, minute: int,
                        second: int, nano: int, offsetSeconds: int)
    ensures var d := DateTime(year, month, day, hour, minute, second, nano, offsetSeconds);
            DateTimeOf(year, month, day, hour, minute, second, nano, offsetSeconds)
            == (if ValidDateTime(d) then Some(d) else None)
  {
  }

  /** The 29th of February exists exactly in leap years. */
  lemma LeapDay(year: int)
    requires -MAX_YEAR <= year <= MAX_YEAR
    ensures DateTimeOf(year, 2, 29, 0, 0, 0, 0, 0).Some? <==> IsLeap(year)
  {
  }

  /** Negating both fields negates the offset: `-hh:mm` is the mirror image of `+hh:mm`. */
  lemma OffsetOfNegated(hours: int, minutes: int)
    requires 0 <= hours && 0 <= minutes
    ensures OffsetOf(-hours, -minutes).Some? == OffsetOf(hours, minutes).Some?
    ensures OffsetOf(hours, minutes).Some? ==>
              OffsetOf(-hours, -minutes).value == -OffsetOf(hours, minutes).value
  {
  }

  /** For non-negative fields, the offset is accepted exactly up to 18:00. */
  lemma OffsetOfAccepts(hours: int, minutes: int)
    requires 0 <= hours && 0 <= minutes
    ensures OffsetOf(hours, minutes).Some? <==> hours * 60 + minutes <= 18 * 60 && minutes < 60
  {
  }
}

/** UTC calendar arithmetic on timestamps given as integer seconds since
    1970-01-01 00:00:00 UTC (a Thursday). Dafny's `/` and `%` with a positive
    divisor are floor division and a non-negative remainder, which is what the
    Python datetime arithmetic does, also before 1970. */
module Calendar {

  const SECONDS_PER_DAY := 86400
  const SECONDS_PER_HOUR := 3600

  /** The bucket names of the weekday histogram, in `datetime.weekday()` order. */
  const DAY_NAMES: seq<string> :=
    ["Monday", "Tuesday", "Wednesday", "Thursday", "Friday", "Saturday", "Sunday"]

  /** `datetime.weekday()`: Monday is 0 and Sunday is 6. */
  function Weekday(t: int): (d: nat)
    ensures d < |DAY_NAMES|
  {
    (t / SECONDS_PER_DAY + 3) % 7
  }

  /** `datetime.hour`. */
  function Hour(t: int): (h: nat)
    ensures h < 24
  {
    (t % SECONDS_PER_DAY) / SECONDS_PER_HOUR
  }

  /** `(a - b).days` for two datetimes: whole days, rounded towards minus
      infinity, with no absolute value taken. */
  function DaysBetween(a: int, b: int): (days: int)
    ensures days * SECONDS_PER_DAY <= a - b < (days + 1) * SECONDS_PER_DAY
    ensures a >= b ==> days >= 0
    ensures a < b ==> days < 0
  {
    (a - b) / SECONDS_PER_DAY
  }

  /** The weekday moves on by one with every day and repeats every week. */
  lemma WeekdayNextDay(t: int)
    ensures Weekday(t + SECONDS_PER_DAY) == (Weekday(t) + 1) % 7
  {
    assert (t + SECONDS_PER_DAY) / SECONDS_PER_DAY == t / SECONDS_PER_DAY + 1;
  }

  /** Within one day the hour is the number of whole hours since midnight. */
  lemma HourOfDay(day: int, secs: int)
    requires 0 <= secs < SECONDS_PER_DAY
    ensures Hour(day * SECONDS_PER_DAY + secs) == secs / SECONDS_PER_HOUR
    ensures Weekday(day * SECONDS_PER_DAY + secs) == (day + 3) % 7
  {
    assert (day * SECONDS_PER_DAY + secs) % SECONDS_PER_DAY == secs;
    assert (day * SECONDS_PER_DAY + secs) / SECONDS_PER_DAY == day;
  }
}

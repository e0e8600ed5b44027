/**
 * The part of a naive `datetime` the pattern reads: the day of the week and the
 * time of day. Calendar dates are not modelled; because a naive `datetime`
 * has no daylight saving, subtracting a whole number of seconds moves these
 * fields exactly as it moves the position within the week.
 */
module DateTimes {

  const SecondsPerMinute := 60
  const SecondsPerHour := 3600
  const SecondsPerDay := 86400
  const SecondsPerWeek := 604800

  /** `weekday` follows `datetime.weekday()`: Monday is 0. */
  datatype Timestamp = Timestamp(weekday: int, hour: int, minute: int, second: int, microsecond: int)

  ghost predicate Valid(t: Timestamp) {
    && 0 <= t.weekday < 7
    && 0 <= t.hour < 24
    && 0 <= t.minute < 60
    && 0 <= t.second < 60
    && 0 <= t.microsecond < 1000000
  }

  /** Whole seconds elapsed since Monday 00:00:00 of the same week. */
  function SecondOfWeek(t: Timestamp): int {
    t.weekday * SecondsPerDay + t.hour * SecondsPerHour + t.minute * SecondsPerMinute + t.second
  }

  /** A second of the week splits into its day, hour, minute and second. */
  lemma SplitSecondOfWeek(n: int)
    requires 0 <= n < SecondsPerWeek
    ensures 0 <= n / SecondsPerDay < 7 && 0 <= (n / SecondsPerHour) % 24 < 24
    ensures 0 <= (n / SecondsPerMinute) % 60 < 60 && 0 <= n % 60 < 60
    ensures (n / SecondsPerDay) * SecondsPerDay + ((n / SecondsPerHour) % 24) * SecondsPerHour
      + ((n / SecondsPerMinute) % 60) * SecondsPerMinute + n % 60 == n
  {
    var a := n / 60;
    assert n == a * 60 + n % 60;
    var b := a / 60;
    assert a == b * 60 + a % 60;
    assert b == n / 3600;
    var c := b / 24;
    assert b == c * 24 + b % 24;
    assert c == n / 86400;
  }

  /** `t - timedelta(seconds=d)`, seen through the week-relative fields. */
  function Minus(t: Timestamp, d: int): (u: Timestamp)
    ensures Valid(t) ==> Valid(u)
    ensures Valid(t) ==> SecondOfWeek(u) == (SecondOfWeek(t) - d) % SecondsPerWeek
    ensures u.microsecond == t.microsecond
  {
    var n := (SecondOfWeek(t) - d) % SecondsPerWeek;
    SplitSecondOfWeek(n);
    Timestamp(n / SecondsPerDay, (n / SecondsPerHour) % 24, (n / SecondsPerMinute) % 60, n % 60, t.microsecond)
  }
}

/** Timestamps as the capture loop sees them: Go `time.Time` values, all in
    UTC, broken into their calendar fields. Field ranges are carried by the
    types, so every `Time` is one Go could hold (years limited to the four
    digits the file-name layouts print). */
module Clock {

  type Year = y: int | 0 <= y <= 9999
  type Month = m: int | 1 <= m <= 12 witness 1
  type Day = d: int | 1 <= d <= 31 witness 1
  type Hour = h: int | 0 <= h < 24
  type Minute = m: int | 0 <= m < 60
  type Second = s: int | 0 <= s < 60
  type Nanos = n: int | 0 <= n < 1_000_000_000

  datatype Time = Time(year: Year, month: Month, day: Day, hour: Hour,
                       minute: Minute, second: Second, nanos: Nanos)

  /** Go's zero value `time.Time{}`: January 1 of year 1, 00:00:00 UTC. */
  const Zero: Time := Time(1, 1, 1, 0, 0, 0, 0)

  /** `Time.IsZero`. */
  predicate IsZero(t: Time) {
    t == Zero
  }

  /** `Time.Equal`: the same instant, which for two UTC values means that
      every field agrees. */
  function Equal(a: Time, b: Time): (r: bool)
    ensures r <==> a == b
  {
    && a.year == b.year && a.month == b.month && a.day == b.day
    && a.hour == b.hour && a.minute == b.minute
    && a.second == b.second && a.nanos == b.nanos
  }

  /** Chronological order of two UTC timestamps (field by field). */
  predicate AtOrBefore(a: Time, b: Time) {
    if a.year != b.year then a.year < b.year
    else if a.month != b.month then a.month < b.month
    else if a.day != b.day then a.day < b.day
    else if a.hour != b.hour then a.hour < b.hour
    else if a.minute != b.minute then a.minute < b.minute
    else if a.second != b.second then a.second < b.second
    else a.nanos <= b.nanos
  }

  predicate SameDate(a: Time, b: Time) {
    a.year == b.year && a.month == b.month && a.day == b.day
  }

  /** Same calendar date and hour: the part of a timestamp the 5-minute
      flooring keeps. */
  predicate SameHour(a: Time, b: Time) {
    SameDate(a, b) && a.hour == b.hour
  }

  /** A bucket label: the start of a 5-minute interval. */
  predicate Floored(t: Time) {
    t.minute % 5 == 0 && t.second == 0 && t.nanos == 0
  }

  /** `timeToLast5Mins`: the start of the 5-minute interval holding `t`.
      Date and hour are kept, the minute is rounded down to a multiple of
      five and seconds and nanoseconds become zero. */
  function Floor5(t: Time): (r: Time)
    ensures SameHour(r, t) && Floored(r)
    ensures r.minute <= t.minute < r.minute + 5
  {
    Time(t.year, t.month, t.day, t.hour, t.minute - t.minute % 5, 0, 0)
  }

  /** The bucket label of `t` is the only label whose interval holds `t`. */
  lemma Floor5Unique(t: Time, u: Time)
    requires SameHour(u, t) && Floored(u)
    requires u.minute <= t.minute < u.minute + 5
    ensures Floor5(t) == u
  {
    var r := Floor5(t);
    if r.minute < u.minute {
      MultiplesOfFiveApart(r.minute, u.minute);
    }
  }

  lemma MultiplesOfFiveApart(x: int, y: int)
    requires 0 <= x < y && x % 5 == 0 && y % 5 == 0
    ensures y - x >= 5
  {
    assert x == 5 * (x / 5) && y == 5 * (y / 5);
    assert x / 5 < y / 5;
  }

  /** Flooring a label gives the label back, so flooring is idempotent. */
  lemma Floor5Fixes(t: Time)
    ensures Floored(t) <==> Floor5(t) == t
    ensures Floor5(Floor5(t)) == Floor5(t)
  {
    if Floored(t) {
      Floor5Unique(t, t);
    }
    Floor5Unique(Floor5(t), Floor5(t));
  }

  /** Two timestamps get the same label exactly when they share date, hour
      and the five-minute slot of the hour. */
  lemma Floor5SameBucket(a: Time, b: Time)
    ensures Floor5(a) == Floor5(b) <==> SameHour(a, b) && a.minute / 5 == b.minute / 5
  {
    var fa, fb := Floor5(a), Floor5(b);
    assert fa.minute == 5 * (a.minute / 5) && fb.minute == 5 * (b.minute / 5);
  }

  /** The worked examples of `timeToLast5Mins`: 10:00:00 and 10:04:59 are
      labelled 10:00, 10:05:01 is labelled 10:05. */
  lemma Floor5ExampleOnBoundary()
    ensures Floor5(Time(2024, 1, 1, 10, 0, 0, 0)) == Time(2024, 1, 1, 10, 0, 0, 0)
  {
  }

  lemma Floor5ExampleJustBefore()
    ensures Floor5(Time(2024, 1, 1, 10, 4, 59, 0)) == Time(2024, 1, 1, 10, 0, 0, 0)
  {
  }

  lemma Floor5ExampleJustAfter()
    ensures Floor5(Time(2024, 1, 1, 10, 5, 1, 0)) == Time(2024, 1, 1, 10, 5, 0, 0)
  {
  }

  /** A label never lies after the timestamp it labels. */
  lemma Floor5NotAfter(t: Time)
    ensures AtOrBefore(Floor5(t), t)
  {
  }

  /** Flooring keeps chronological order: a later tick never gets an
      earlier label. */
  lemma Floor5Monotone(a: Time, b: Time)
    requires AtOrBefore(a, b)
    ensures AtOrBefore(Floor5(a), Floor5(b))
  {
    var fa, fb := Floor5(a), Floor5(b);
    if SameHour(a, b) && fa.minute > fb.minute {
      MultiplesOfFiveApart(fb.minute, fa.minute);
    }
  }
}

/** The text Python gives for the current date and time, which the export
    file name is built from. The clock itself is not modelled: an instant
    is passed in. */
module Clock {
  import opened Text

  /** A wall-clock instant as Python's `datetime` holds it. */
  datatype Instant = Instant(
    year: nat, month: nat, day: nat,
    hour: nat, minute: nat, second: nat, microsecond: nat)

  /** The ranges `datetime` keeps its fields in. */
  predicate Valid(c: Instant) {
    && 1 <= c.year <= 9999 && 1 <= c.month <= 12 && 1 <= c.day <= 31
    && c.hour < 24 && c.minute < 60 && c.second < 60 && c.microsecond < 1000000
  }

  /** Whether two instants fall on the same calendar day. */
  predicate SameDate(a: Instant, b: Instant) {
    a.year == b.year && a.month == b.month && a.day == b.day
  }

  /** Whether two instants show the same hour, minute and second of the
      clock, whatever their day. */
  predicate SameClockSecond(a: Instant, b: Instant) {
    a.hour == b.hour && a.minute == b.minute && a.second == b.second
  }

  /** `str(now.date())`: `YYYY-MM-DD`. */
  function DateText(c: Instant): (s: string)
    ensures |s| == 10 && '/' !in s && ':' !in s
  {
    Pad(c.year, 4) + "-" + Pad(c.month, 2) + "-" + Pad(c.day, 2)
  }

  /** `str(now.time())`: `HH:MM:SS`, followed by `.ffffff` unless the
      microseconds are zero. */
  function TimeText(c: Instant): (s: string)
    ensures |s| == 8 || |s| == 15
    ensures '/' !in s
  {
    Pad(c.hour, 2) + ":" + Pad(c.minute, 2) + ":" + Pad(c.second, 2)
    + (if c.microsecond == 0 then "" else "." + Pad(c.microsecond, 6))
  }
}

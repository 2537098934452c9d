/** The calendar the tracker needs, over integer time (seconds since the
    epoch) on a fixed-offset clock: days are 86400 seconds long and start at
    multiples of 86400. */
module Calendar {

  const SecondsPerDay: int := 86400

  /** Start of the day containing `t` (the `Calendar.startOfDay(for:)` call). */
  function StartOfDay(t: int): (r: int)
    ensures r <= t < r + SecondsPerDay
    ensures r % SecondsPerDay == 0
  {
    t - t % SecondsPerDay
  }

  /** `t` lies in the half-open day [startOfDay(d), startOfDay(d) + 1 day). */
  predicate InDay(t: int, d: int) {
    StartOfDay(d) <= t < StartOfDay(d) + SecondsPerDay
  }

  /** The day window is exactly the set of times with the same start of day. */
  lemma InDayIffSameDay(t: int, d: int)
    ensures InDay(t, d) <==> StartOfDay(t) == StartOfDay(d)
  {
  }

  /** A day start whose window contains `t` is `t`'s start of day. */
  lemma StartOfDayUnique(t: int, s: int)
    requires s % SecondsPerDay == 0 && s <= t < s + SecondsPerDay
    ensures StartOfDay(t) == s
  {
  }

  /** Seconds since the start of the day. */
  function SecondOfDay(t: int): (r: int)
    ensures 0 <= r < SecondsPerDay
    ensures StartOfDay(t) + r == t
  {
    t % SecondsPerDay
  }

  /** Hour component, 0..23. */
  function Hour(t: int): (r: int)
    ensures 0 <= r < 24
  {
    SecondOfDay(t) / 3600
  }

  /** Minute component, 0..59. */
  function Minute(t: int): (r: int)
    ensures 0 <= r < 60
  {
    (SecondOfDay(t) % 3600) / 60
  }

  /** Minutes since midnight as the source computes it: hour * 60 + minute.
      Seconds are dropped. */
  function MinuteOfDay(t: int): (r: int)
    ensures 0 <= r < 1440
    ensures r * 60 <= SecondOfDay(t) < r * 60 + 60
  {
    Hour(t) * 60 + Minute(t)
  }

  /** Gregorian weekday, 1 = Sunday .. 7 = Saturday. The epoch day was a
      Thursday (5). */
  function Weekday(t: int): (r: int)
    ensures 1 <= r <= 7
  {
    (t / SecondsPerDay + 4) % 7 + 1
  }

  /** Saturday or Sunday. */
  predicate IsWeekend(t: int) {
    Weekday(t) == 1 || Weekday(t) == 7
  }

  /** One day later is one weekday later, Saturday wrapping to Sunday. */
  lemma WeekdayAdvances(t: int)
    ensures Weekday(t + SecondsPerDay) == Weekday(t) % 7 + 1
  {
  }

  /** `Date.isAfternoon`: three o'clock or later. */
  function IsAfternoon(t: int): (r: bool)
    ensures r <==> SecondOfDay(t) >= 15 * 3600
  {
    Hour(t) >= 15
  }
}

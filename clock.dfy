/** Time as integer seconds. The wall clock is never read: every operation
    that needs the current time takes it as a parameter `now`. */
module Clock {

  /** Seconds in one day, one hour; one subscription month is exactly 30 days. */
  const DAY: int := 86400
  const HOUR: int := 3600
  const MONTH_DAYS: int := 30

  /** Midnight of the day holding `t` (the day boundary is taken at offset 0). */
  function DayStart(t: int): (d: int)
    ensures d % DAY == 0
    ensures d <= t < d + DAY
  {
    t - t % DAY
  }

  /** The window of the day starting at `today` (a value of DayStart), as
      the ledger queries use it: both ends are inclusive, because the query
      compares with BETWEEN. */
  predicate InDay(t: int, today: int)
  {
    today <= t <= today + DAY
  }

  /** Whole days left from `now` until `end`, floored, and never negative. */
  function DaysLeft(end: int, now: int): (n: nat)
    ensures end > now ==> n * DAY <= end - now < (n + 1) * DAY
    ensures end <= now ==> n == 0
  {
    var days := (end - now) / DAY;
    if days < 0 then 0 else days
  }

  /** The instant `hours` hours before `now`. */
  function HoursBefore(now: int, hours: int): int
  {
    now - hours * HOUR
  }

  /** Length of a subscription of `months` months, in seconds. */
  function MonthsToSeconds(months: int): int
  {
    MONTH_DAYS * months * DAY
  }
}

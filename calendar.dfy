/** Local calendar arithmetic on instants. An instant is a number of
    milliseconds since 1970-01-01 00:00 local time; a day number counts days
    since that date, which was a Thursday. Dafny's `/` and `%` round toward
    negative infinity for a positive divisor, so instants before 1970 fall in
    the right day as well. */
module Calendar {

  const MsPerDay: int := 86_400_000

  /** The day number an instant falls on. */
  function Day(t: int): int
  {
    t / MsPerDay
  }

  /** Milliseconds since midnight of the instant's day. */
  function TimeOfDay(t: int): (ms: int)
    ensures 0 <= ms < MsPerDay
    ensures t == Day(t) * MsPerDay + ms
  {
    t % MsPerDay
  }

  /** `Date.prototype.getDay()`: 0 for Sunday through 6 for Saturday. */
  function DayOfWeek(d: int): (w: int)
    ensures 0 <= w < 7
  {
    (d + 4) % 7
  }

  /** Midnight at the start of day `d`. */
  function Midnight(d: int): int
  {
    d * MsPerDay
  }

  lemma DayOfMidnightPlus(d: int, ms: int)
    requires 0 <= ms < MsPerDay
    ensures Day(Midnight(d) + ms) == d
  {
  }

  /** `start` is midnight of the most recent Sunday on or before `now`:
      a Sunday midnight with `now` in the seven days that follow it. */
  predicate IsWeekStartOf(start: int, now: int)
  {
    TimeOfDay(start) == 0 && DayOfWeek(Day(start)) == 0 &&
    start <= now < start + 7 * MsPerDay
  }
}

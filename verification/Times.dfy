/** Calendar values: a date, or a date-time that may carry its zone's offset. Wall-clock values are
    counted in ticks from the first representable midnight. */
module Times {
  import opened Prelude

  const DAY := 24 * 60 * 60 * 1_000_000

  /** The last representable date-time. */
  const FAR_FUTURE := 3_652_059 * DAY - 1

  datatype When = Day(day: int) | Stamp(wall: int, offset: Option<int>)

  /** The current time in its own zone, or naive. */
  datatype Now = Now(wall: int, offset: Option<int>)

  function DateOf(wall: int): int {
    wall / DAY
  }

  /** A date-time as `now`'s wall clock shows it. Against a naive `now` an aware value loses its
      zone as it stands. */
  function Wall(v: When, now: Now): int {
    match v
    case Day(d) => d * DAY
    case Stamp(wall, offset) =>
      if now.offset.Some? && offset.Some? then wall - offset.value + now.offset.value else wall
  }

  /** Before today, or before this moment: a date lasts the whole day. */
  predicate Elapsed(v: When, now: Now) {
    if v.Day? then v.day < DateOf(now.wall) else Wall(v, now) < now.wall
  }

  lemma DateOfDay(d: int, t: int)
    ensures DateOf(d * DAY) == d
    ensures d * DAY <= t <==> d <= DateOf(t)
  {
  }
}

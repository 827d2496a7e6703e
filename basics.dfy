/** Identifiers and time as the model sees them. */
module Basics {

  /** A MongoDB ObjectId: the store draws new habit and loot ids from one counter; user ids are given. */
  type ObjectId = nat

  /**
   * A calendar day number. Stands for the local date that `Date.prototype.toDateString`
   * yields; `day - 1` is yesterday and `day - 7` a week ago.
   */
  type Day = int

  /** A point in time: milliseconds since the epoch, as `Date.now()` counts them. */
  type Instant = int

  const MILLISECONDS_PER_DAY: int := 86_400_000

  /** The calendar day an instant falls on (in UTC; time zones are not modelled). */
  function DayOf(t: Instant): (d: Day)
    ensures d * MILLISECONDS_PER_DAY <= t < d * MILLISECONDS_PER_DAY + MILLISECONDS_PER_DAY
  {
    t / MILLISECONDS_PER_DAY
  }
}

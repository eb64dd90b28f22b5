/**
 * Instants. Handlers read `datetime.utcnow()`; in this model the current
 * instant is a parameter, and an instant is a count of whole seconds, so
 * only its order and the day arithmetic of the date filter matter.
 */
module Times {
  type Time = nat

  /** Seconds from the start of a day to 23:59:59 of the same day. */
  const EndOfDayOffset: nat := 23 * 3600 + 59 * 60 + 59
}

/** Whole days between two instants, as `moment().diff(dateOut, "days")`
    computes them: the elapsed milliseconds divided by the length of a day
    and truncated toward zero (no partial-day billing, and no clamping of a
    negative difference). Instants are integer milliseconds in UTC. */
module Clock {

  /** Milliseconds in one 24-hour day. */
  const DayMs: int := 86400000

  /** The whole days from `dateOut` to `now`, rounded toward zero. A `dateOut`
      in the future gives a negative count, as the handler computes it. */
  function WholeDays(now: int, dateOut: int): (days: int)
    ensures now >= dateOut ==>
      0 <= days && days * DayMs <= now - dateOut < days * DayMs + DayMs
    ensures now < dateOut ==>
      days <= 0 && days * DayMs - DayMs < now - dateOut <= days * DayMs
  {
    var elapsed := now - dateOut;
    if elapsed >= 0 then elapsed / DayMs else -((-elapsed) / DayMs)
  }

  /** A span of n whole days and a remainder shorter than a day counts as n
      days, whichever way it runs. */
  lemma WholeDaysOfSpan(dateOut: int, n: int, rem: int)
    requires 0 <= n && 0 <= rem < DayMs
    ensures WholeDays(dateOut + n * DayMs + rem, dateOut) == n
    ensures WholeDays(dateOut - n * DayMs - rem, dateOut) == -n
  {
  }
}

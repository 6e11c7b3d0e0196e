/** The countdown to the next scheduled check and its minutes/seconds display. */
module Countdown {

  /** Seconds between scheduled checks; a check resets the countdown to it. */
  const CheckInterval: nat := 3600

  /** One firing of the once-per-second clock timer: the countdown goes down
      by one and stops at zero. */
  function Tick(remaining: nat): (r: nat)
    ensures remaining - 1 <= r <= remaining
    ensures r == 0 <==> remaining <= 1
  {
    if remaining > 0 then remaining - 1 else 0
  }

  /** The countdown after the clock timer has fired `seconds` times: it never
      goes below zero and otherwise loses exactly one per tick. */
  function Elapse(remaining: nat, seconds: nat): (r: nat)
    ensures r == if seconds <= remaining then remaining - seconds else 0
    decreases seconds
  {
    if seconds == 0 then remaining else Elapse(Tick(remaining), seconds - 1)
  }

  /** A countdown split for display as `<minutes>m <seconds>s`. */
  datatype Remaining = Remaining(minutes: nat, seconds: nat)

  /** `formatTimeRemaining`: whole minutes and the seconds left over. */
  function FormatTimeRemaining(total: nat): (r: Remaining)
    ensures r.minutes * 60 + r.seconds == total
    ensures r.seconds < 60
  {
    Remaining(total / 60, total % 60)
  }

  /** The split is the only one with fewer than 60 seconds. */
  lemma FormatTimeRemainingUnique(total: nat, minutes: nat, seconds: nat)
    requires minutes * 60 + seconds == total && seconds < 60
    ensures FormatTimeRemaining(total) == Remaining(minutes, seconds)
  {
  }
}

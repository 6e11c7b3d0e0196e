/** The business-hours gate: a rise in the rate is only sent to the analyser
    during Singapore office hours. */
module BusinessHours {

  /** An hour of the Singapore local day, as `getHours()` reports it. */
  type Hour = h: int | 0 <= h < 24

  /** First hour at which the gate is open. */
  const OpenHour: Hour := 8
  /** First hour at which the gate is closed again. */
  const CloseHour: Hour := 17

  /** The gate: the half-open interval [OpenHour, CloseHour) of the local day,
      that is, the nine hours from 8:00 to 16:59. */
  predicate IsWithinWorkingHours(hour: int)
    ensures IsWithinWorkingHours(hour) <==> hour in {8, 9, 10, 11, 12, 13, 14, 15, 16}
  {
    hour >= OpenHour && hour < CloseHour
  }

  /** The edges of the gate: 7 and 17 are closed, 8 and 16 are open. */
  lemma GateBoundaries()
    ensures !IsWithinWorkingHours(7) && IsWithinWorkingHours(8)
    ensures IsWithinWorkingHours(16) && !IsWithinWorkingHours(17)
  {
  }

  /** The hours of one day in which the gate is open. */
  function OpenHours(): (hours: set<int>)
    ensures forall h: Hour :: h in hours <==> IsWithinWorkingHours(h)
    ensures forall h :: h in hours ==> 0 <= h < 24
  {
    set h: int | 0 <= h < 24 && IsWithinWorkingHours(h)
  }

  /** Of the 24 hours of a day, the gate is open in exactly nine. */
  lemma GateOpensNineHoursADay()
    ensures |OpenHours()| == 9
  {
    var nine: set<int> := {8, 9, 10, 11, 12, 13, 14, 15, 16};
    forall h: int ensures h in OpenHours() <==> h in nine {
      assert IsWithinWorkingHours(h) <==> h in nine;
    }
    assert OpenHours() == nine;
  }
}

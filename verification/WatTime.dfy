/** Calendar dates in West Africa Time. */
module WatTime {
  import opened Base

  /** West Africa Time is UTC+1 all year. */
  const WAT_OFFSET_MS: int := HOUR_MS

  /** The instant of a WAT date at a WAT time of day. */
  function WatDateAtTime(d: Day, minutes: int): int { d * DAY_MS + minutes * MINUTE_MS - WAT_OFFSET_MS }

  /** The WAT date of an instant; earlier than 1970 too. */
  function ToWatDay(t: int): Day { (t + WAT_OFFSET_MS) / DAY_MS }

  lemma WatDayBounds(t: int, d: Day)
    ensures ToWatDay(t) == d <==> WatDateAtTime(d, 0) <= t < WatDateAtTime(d + 1, 0)
  {
    var x := t + WAT_OFFSET_MS;
    assert x == DAY_MS * (x / DAY_MS) + x % DAY_MS;
  }

  /** The two conversions undo each other exactly for the minutes of one day. */
  lemma WatRoundTripIff(d: Day, minutes: int)
    ensures ToWatDay(WatDateAtTime(d, minutes)) == d <==> 0 <= minutes < 1440
  {
    WatDayBounds(WatDateAtTime(d, minutes), d);
  }
}

/** rt_tick_from_millisecond (rt-thread/src/clock.c, lines 139-155). */
module Clock {
  const RT_WAITING_FOREVER := -1

  /** `perSecond` is RT_TICK_PER_SECOND; nothing wraps as long as the result fits a tick. */
  function TickFromMillisecond(ms: int, perSecond: nat): int {
    if ms < 0 then RT_WAITING_FOREVER else perSecond * (ms / 1000) + (perSecond * (ms % 1000) + 999) / 1000
  }

  /** Forever for a negative time, and otherwise the least number of ticks that last at least the
      time asked for. */
  lemma TickIsCeiling(ms: int, perSecond: nat)
    ensures var t := TickFromMillisecond(ms, perSecond);
      && (ms < 0 ==> t == RT_WAITING_FOREVER)
      && (ms >= 0 ==> t >= 0 && 1000 * t >= perSecond * ms && (t > 0 ==> 1000 * (t - 1) < perSecond * ms))
  {
    var q, r := ms / 1000, ms % 1000;
    assert perSecond * ms == perSecond * (1000 * q + r) == 1000 * (perSecond * q) + perSecond * r;
    assert perSecond * r >= 0 && (q >= 0 ==> perSecond * q >= 0);
  }
}

// The interval timer: a 32-bit millisecond counter that fires once an
// interval has passed since it last fired. The millis() reading is a
// parameter; unsigned long arithmetic wraps modulo 2^32.

module IntervalTimer {

  const Modulus: int := 0x1_0000_0000

  /** An unsigned long value. */
  predicate IsU32(x: int) {
    0 <= x < Modulus
  }

  /** now - last in unsigned long arithmetic: the milliseconds from last to now, across a wrap. */
  function Elapsed(now: int, last: int): (d: int)
    ensures IsU32(d)
    ensures IsU32(now) && IsU32(last) ==> (last + d) % Modulus == now
  {
    (now - last) % Modulus
  }

  /** The elapsed time is the one d below 2^32 that leads from last to now. */
  lemma ElapsedUnique(now: int, last: int, d: int)
    requires IsU32(now) && IsU32(last) && IsU32(d)
    requires (last + d) % Modulus == now
    ensures Elapsed(now, last) == d
  {
    if last + d < Modulus {
      assert now == last + d;
    } else {
      assert now == last + d - Modulus;
      assert now - last == d - Modulus;
    }
  }

  /** The lastChecked value of a new timer. */
  function Start(now: int, interval: int, runOnStart: bool): (last: int)
    ensures IsU32(last)
    ensures IsU32(now) && IsU32(interval) && runOnStart ==> Elapsed(now, last) == (2 * interval) % Modulus
    ensures IsU32(now) && !runOnStart ==> last == now
  {
    if runOnStart then (now - (2 * interval) % Modulus) % Modulus else now % Modulus
  }

  class Timer {
    var lastChecked: int
    const checkInterval: int

    ghost predicate Valid()
      reads this
    {
      IsU32(lastChecked) && IsU32(checkInterval)
    }

    /**
     * Timer(interval, runOnStart): with runOnStart the last check is put two
     * intervals in the past, so the first call fires.
     */
    constructor(interval: int, runOnStart: bool, now: int)
      requires IsU32(interval) && IsU32(now)
      ensures Valid()
      ensures checkInterval == interval
      ensures lastChecked == Start(now, interval, runOnStart)
    {
      checkInterval := interval;
      lastChecked := Start(now, interval, runOnStart);
    }

    /** isIntervalPassed: fires when an interval has elapsed and restarts the wait at now. */
    method IsIntervalPassed(now: int) returns (passed: bool)
      requires Valid() && IsU32(now)
      modifies this
      ensures Valid()
      ensures passed <==> Elapsed(now, old(lastChecked)) >= checkInterval
      ensures lastChecked == if passed then now else old(lastChecked)
    {
      if Elapsed(now, lastChecked) >= checkInterval {
        lastChecked := now;
        return true;
      }
      return false;
    }
  }

  /** A value below two wraps loses at most one. */
  lemma WrapOnce(x: int)
    requires 0 <= x < 2 * Modulus
    ensures x % Modulus == if x < Modulus then x else x - Modulus
  {
    if x >= Modulus {
      assert x == 1 * Modulus + (x - Modulus);
    }
  }

  /** Waits add up while their sum stays below 2^32. */
  lemma ElapsedAdds(a: int, b: int, c: int)
    requires IsU32(a) && IsU32(b) && IsU32(c)
    requires Elapsed(b, a) + Elapsed(c, b) < Modulus
    ensures Elapsed(c, a) == Elapsed(b, a) + Elapsed(c, b)
  {
    var d1, d2 := Elapsed(b, a), Elapsed(c, b);
    WrapOnce(a + d1);
    WrapOnce(b + d2);
    WrapOnce(a + (d1 + d2));
    ElapsedUnique(c, a, d1 + d2);
  }

  /**
   * With runOnStart and three intervals below 2^32, a call made within one
   * interval of construction fires.
   */
  lemma FirstCallFires(start: int, interval: int, now: int)
    requires IsU32(start) && IsU32(now) && IsU32(interval)
    requires 3 * interval < Modulus
    requires Elapsed(now, start) <= interval
    ensures Elapsed(now, Start(start, interval, true)) >= interval
  {
    var last := Start(start, interval, true);
    WrapOnce(2 * interval);
    assert Elapsed(start, last) == 2 * interval;
    ElapsedAdds(last, start, now);
  }

  /**
   * Across the wrap of millis() the timer still measures the real elapsed
   * time: a check at last and a reading d milliseconds later fire exactly
   * when d reaches the interval.
   */
  lemma FiresAcrossWrap(last: int, d: int, interval: int)
    requires IsU32(last) && IsU32(d) && IsU32(interval)
    ensures Elapsed((last + d) % Modulus, last) >= interval <==> d >= interval
  {
    ElapsedUnique((last + d) % Modulus, last, d);
  }

  /** Without runOnStart the first call fires only once an interval has passed. */
  lemma NoRunOnStartWaits(start: int, interval: int, now: int)
    requires IsU32(start) && IsU32(now) && IsU32(interval)
    ensures Elapsed(now, Start(start, interval, false)) >= interval <==> Elapsed(now, start) >= interval
  {
  }
}

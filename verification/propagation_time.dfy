// The PropagationBox light schedule works in minutes of the day: a
// positive modulo and the shift that puts the schedule's start at 0.

module PropagationTime {
  import opened Text

  /** MINUTES_IN_DAY */
  const MinutesInDay: int := 24 * 60

  /** mod: C's `%`, moved up by b when it comes out negative. */
  function Mod(a: int, b: int): (r: int)
    requires b != 0
    ensures b > 0 ==> 0 <= r < b
  {
    var rem := CRem(a, b);
    if rem < 0 then rem + b else rem
  }

  /** For a positive divisor mod is the mathematical (Euclidean) remainder. */
  lemma ModIsEuclidean(a: int, b: int)
    requires b > 0
    ensures Mod(a, b) == a % b
  {
    if a >= 0 {
      assert CDiv(a, b) == a / b;
      assert CRem(a, b) == a - (a / b) * b;
      EuclideanUnique(a, b, a / b, a - (a / b) * b);
    } else {
      var q, s := (-a) / b, (-a) % b;
      assert CDiv(a, b) == -q;
      assert CRem(a, b) == a + q * b;
      assert -a == q * b + s;
      if s == 0 {
        assert a == (-q) * b + 0;
        EuclideanUnique(a, b, -q, 0);
      } else {
        assert a == (-q - 1) * b + (b - s);
        EuclideanUnique(a, b, -q - 1, b - s);
      }
    }
  }

  /** The quotient and remainder with 0 <= r < b are the Euclidean ones. */
  lemma EuclideanUnique(a: int, b: int, k: int, r: int)
    requires b > 0 && 0 <= r < b && a == k * b + r
    ensures a % b == r && a / b == k
  {
    var k', r' := a / b, a % b;
    assert (k - k') * b == r' - r;
    if k < k' {
      AtLeastOnce(k' - k, b);
      assert false;
    } else if k > k' {
      AtLeastOnce(k - k', b);
      assert false;
    }
  }

  lemma AtLeastOnce(d: int, b: int)
    requires d >= 1 && b > 0
    ensures d * b >= b
  {
    if d > 1 {
      AtLeastOnce(d - 1, b);
      assert d * b == (d - 1) * b + b;
    }
  }

  /** normalizeTimeToStartTime: minutes since the start time, wrapped to one day. */
  function NormalizeTimeToStartTime(minuteOfDay: int, startTime: int): (r: int)
    ensures 0 <= r < MinutesInDay
  {
    Mod(minuteOfDay - startTime, MinutesInDay)
  }

  /** The start time itself is minute 0, and k minutes later is minute k. */
  lemma NormalizeFromStart(startTime: int, k: int)
    requires 0 <= k < MinutesInDay
    ensures NormalizeTimeToStartTime(startTime, startTime) == 0
    ensures NormalizeTimeToStartTime(startTime + k, startTime) == k
  {
    ModIsEuclidean(0, MinutesInDay);
    ModIsEuclidean(k, MinutesInDay);
  }

  /** A whole number of days later is the same minute of the schedule. */
  lemma NormalizeIsDaily(minuteOfDay: int, startTime: int, days: int)
    ensures NormalizeTimeToStartTime(minuteOfDay + days * MinutesInDay, startTime)
            == NormalizeTimeToStartTime(minuteOfDay, startTime)
  {
    var a := minuteOfDay - startTime;
    ModIsEuclidean(a, MinutesInDay);
    ModIsEuclidean(a + days * MinutesInDay, MinutesInDay);
    var r := Mod(a, MinutesInDay);
    assert a + days * MinutesInDay == (a / MinutesInDay + days) * MinutesInDay + r;
    EuclideanUnique(a + days * MinutesInDay, MinutesInDay, a / MinutesInDay + days, r);
  }
}

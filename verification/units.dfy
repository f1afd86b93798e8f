// Celsius to Fahrenheit for sensor readings; NULL_TEMPERATURE marks a
// missing reading and passes through unconverted. Floats are reals here.

module Units {

  /** NULL_TEMPERATURE: the reading of an absent or failed sensor. */
  const NullTemperature: real := -100.0

  /** cToF: the sentinel stays the sentinel, every other reading is converted. */
  function CToF(c: real): (f: real)
    ensures c == NullTemperature ==> f == NullTemperature
    ensures c != NullTemperature ==> (f - 32.0) * 5.0 / 9.0 == c
  {
    if c == NullTemperature then NullTemperature else c * 9.0 / 5.0 + 32.0
  }

  /** Apart from the sentinel the conversion is strictly increasing. */
  lemma CToFIncreasing(a: real, b: real)
    requires a != NullTemperature && b != NullTemperature && a < b
    ensures CToF(a) < CToF(b)
  {
    assert b * 9.0 - a * 9.0 == (b - a) * 9.0;
  }

  /**
   * A genuine reading of -100 degrees Celsius is taken for the sentinel:
   * it comes back as -100, not -148, and so lies above the conversion of
   * the next warmer reading.
   */
  lemma SentinelShadowsReading()
    ensures CToF(-100.0) == -100.0
    ensures -100.0 * 9.0 / 5.0 + 32.0 == -148.0
    ensures CToF(-99.0) < CToF(-100.0)
  {
  }
}

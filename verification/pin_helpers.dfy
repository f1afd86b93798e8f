// The board's GPIO allow-list. The output and the input check are the
// same scan over VALID_GPIO_PINS, so they are one method here; the list
// itself comes from the board configuration and is a parameter.

module PinHelpers {

  /**
   * boardPinIsOutputAllowed and boardPinIsInputAllowed: scan the list and
   * answer true at the first entry equal to the pin, false after the last.
   */
  method BoardPinAllowed(validPins: seq<int>, pin: int) returns (allowed: bool)
    ensures allowed <==> pin in validPins
  {
    for i := 0 to |validPins|
      invariant pin !in validPins[..i]
    {
      if validPins[i] == pin {
        return true;
      }
      assert validPins[..i + 1] == validPins[..i] + [validPins[i]];
    }
    assert validPins[..|validPins|] == validPins;
    return false;
  }
}

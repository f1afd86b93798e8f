// Relay codes and the relay setter behind every actuator of the rule
// engine. A relay's code holds two decimal digits: the tens digit is the
// "auto" value written by rules (0 off, 1 on, 2 don't care) and the ones
// digit the "force" value set by hand (0 force off, 1 force on, 2 auto).
// The setter rewrites the tens digit and keeps the ones digit.

module Relays {
  import opened Wrappers
  import opened Text
  import opened Values

  /** The nine codes a relay can hold: FORCE_OFF_AUTO_OFF (0) .. AUTO_AUTO_X (22). */
  predicate IsRelayCode(code: int) {
    0 <= code < 30 && code % 10 <= 2
  }

  function AutoDigit(code: int): int {
    CDiv(code, 10)
  }

  function ForceDigit(code: int): int {
    CRem(code, 10)
  }

  /** setRelay's new code: trunc(value) * 10 + old % 10, with C's `%`. */
  function WithAutoDigit(code: int, value: real): int {
    Trunc(value) * 10 + CRem(code, 10)
  }

  /**
   * For a non-negative code and value the setter makes the tens digit the
   * truncated value and keeps the ones digit.
   */
  lemma WithAutoDigitDigits(code: int, value: real)
    requires code >= 0 && value >= 0.0
    ensures WithAutoDigit(code, value) >= 0
    ensures AutoDigit(WithAutoDigit(code, value)) == Trunc(value)
    ensures ForceDigit(WithAutoDigit(code, value)) == ForceDigit(code)
  {
    var r := WithAutoDigit(code, value);
    assert r >= 0;
    assert r / 10 == Trunc(value) && r % 10 == code % 10;
  }

  /**
   * Writing 0, 1 or 2 (or any value in [0, 3)) to a valid code gives a valid
   * code whose auto digit is that value and whose force digit is unchanged.
   */
  lemma WithAutoDigitKeepsCodesValid(code: int, value: real)
    requires IsRelayCode(code) && 0.0 <= value < 3.0
    ensures IsRelayCode(WithAutoDigit(code, value))
    ensures AutoDigit(WithAutoDigit(code, value)) == Trunc(value)
    ensures ForceDigit(WithAutoDigit(code, value)) == ForceDigit(code)
  {
    WithAutoDigitDigits(code, value);
  }

  /** SET relay_0 1 on a relay at code 0 gives code 10. */
  lemma SetRelayOnExample()
    ensures WithAutoDigit(0, 1.0) == 10
  {
  }

  /** SET relay_0 0 then brings code 10 back to 0. */
  lemma SetRelayOffExample()
    ensures WithAutoDigit(10, 0.0) == 0
  {
  }

  /** The don't-care reset keeps a force-on digit: code 1 becomes 21. */
  lemma DontCareKeepsForceExample()
    ensures WithAutoDigit(1, 2.0) == 21
  {
  }

  /**
   * A level of -1 or below makes the setter leave the nine codes: the code
   * turns negative, and C's `%` then reads a force digit f of 1 or 2 back
   * as f - 10, so a force-on or auto relay no longer reads as such.
   */
  lemma WithAutoDigitNegative(code: int, value: real)
    requires IsRelayCode(code) && value <= -1.0
    ensures WithAutoDigit(code, value) == Trunc(value) * 10 + ForceDigit(code)
    ensures WithAutoDigit(code, value) < 0 && !IsRelayCode(WithAutoDigit(code, value))
    ensures ForceDigit(WithAutoDigit(code, value)) == if ForceDigit(code) == 0 then 0 else ForceDigit(code) - 10
  {
    var t := Trunc(value);
    assert t <= -1;
    var f := code % 10;
    var r := t * 10 + f;
    var q := (-r) / 10;
    if f == 0 {
      assert -r == (-t) * 10;
      assert q == -t;
      assert CDiv(r, 10) == t;
    } else {
      assert -r == (-t - 1) * 10 + (10 - f);
      assert q == -t - 1;
      assert CDiv(r, 10) == t + 1;
    }
  }

  /** A rule result of -1 (a clock failure) on a force-on relay reset to 21 gives code -9, whose force digit reads -9. */
  lemma NegativeLevelExample()
    ensures WithAutoDigit(21, -1.0) == -9 && ForceDigit(-9) == -9
  {
    WithAutoDigitNegative(21, -1.0);
  }

  /** setRelay: rewrite the code of one relay in place. */
  method SetRelay(relays: array<int>, index: int, value: real)
    requires 0 <= index < relays.Length
    modifies relays
    ensures relays[..] == old(relays[..])[index := WithAutoDigit(old(relays[index]), value)]
  {
    var currentValue := relays[index];
    var intVal := Trunc(value);
    var onesDigit := CRem(currentValue, 10);
    var newValue := intVal * 10 + onesDigit;
    relays[index] := newValue;
  }

  const RelayPrefix: string := "relay_"

  /** The name the rule-set driver uses for relay i: "relay_" + std::to_string(i). */
  function RelayName(i: nat): (name: string)
    ensures RelayPrefix <= name
  {
    RelayPrefix + NatToString(i)
  }

  /**
   * The actuator resolver as the bridge writes it: every name that starts
   * with "relay_" is a relay, whose index is atoi of the rest of the name.
   */
  function ResolveRelayUnchecked(name: string): (r: Option<int>)
    ensures r.Some? <==> RelayPrefix <= name
  {
    if RelayPrefix <= name then Some(Atoi(name[|RelayPrefix|..])) else None
  }

  /**
   * The resolver with the index checked against the size of the relay
   * table: it refuses exactly the indices whose write would fall outside
   * the table.
   */
  function ResolveRelay(name: string, size: nat): (r: Option<int>)
    ensures r.Some? ==> 0 <= r.value < size
    ensures r.Some? <==> ResolveRelayUnchecked(name).Some? && 0 <= ResolveRelayUnchecked(name).value < size
    ensures r.Some? ==> r == ResolveRelayUnchecked(name)
  {
    match ResolveRelayUnchecked(name)
    case Some(i) => if 0 <= i < size then Some(i) else None
    case None => None
  }

  /** Each relay's own name resolves to its own index. */
  lemma ResolveRelayName(i: nat, size: nat)
    ensures ResolveRelayUnchecked(RelayName(i)) == Some(i)
    ensures i < size ==> ResolveRelay(RelayName(i), size) == Some(i)
  {
    var name := RelayName(i);
    assert name[|RelayPrefix|..] == NatToString(i);
    AtoiOfNatToString(i);
  }

  /** The unchecked resolver reads the rest of any "relay_" name with atoi. */
  lemma UncheckedResolverReadsAtoi(rest: string)
    ensures ResolveRelayUnchecked(RelayPrefix + rest) == Some(Atoi(rest))
  {
    assert (RelayPrefix + rest)[|RelayPrefix|..] == rest;
  }

  /**
   * The unchecked resolver hands out indices outside a relay table of
   * `size` entries: the name one past the last relay resolves, and so does
   * every negative one; the checked resolver refuses both.
   */
  lemma UncheckedResolverOutOfRange(size: nat, k: int)
    requires k < 0
    ensures ResolveRelayUnchecked(RelayName(size)) == Some(size)
    ensures ResolveRelayUnchecked(RelayPrefix + IntToString(k)) == Some(k)
    ensures ResolveRelay(RelayName(size), size).None?
    ensures ResolveRelay(RelayPrefix + IntToString(k), size).None?
  {
    ResolveRelayName(size, size);
    UncheckedResolverReadsAtoi(IntToString(k));
    AtoiOfIntToString(k);
  }

  /** A relay name with no digits after the prefix reads as relay 0. */
  lemma UncheckedResolverNoDigits(rest: string)
    requires |rest| > 0 && !IsSpace(rest[0]) && !IsDigit(rest[0]) && rest[0] != '-' && rest[0] != '+'
    ensures ResolveRelayUnchecked(RelayPrefix + rest) == Some(0)
  {
    UncheckedResolverReadsAtoi(rest);
    AtoiOfNoDigits(rest);
  }

  /** "relay_x" is relay 0 to both resolvers: the bound check does not reject a name without digits. */
  lemma UncheckedResolverNoDigitsExample(size: nat)
    requires size > 0
    ensures ResolveRelayUnchecked("relay_x") == Some(0)
    ensures ResolveRelay("relay_x", size) == Some(0)
  {
    var x := "relay_x";
    var rest := x[|RelayPrefix|..];
    assert rest[0] == 'x';
    AtoiOfNoDigits(rest);
  }
}

// The relay table behind the web server's relay routes: five parallel
// arrays of MAX_RELAYS slots (GPIO pin, inversion flag, relay code, rule,
// label) of which the first RUNTIME_RELAY_COUNT are in use. Request
// parameters arrive as text and are read with String::toInt; a missing
// parameter is None. Persisting the tables, re-running the rules and
// reconfiguring the pins after an edit are I/O and are not part of this
// model.

module Servers {
  import opened Wrappers
  import opened Text

  /** The reply a route sends: the body on success, the error message otherwise. */
  datatype Reply = Ok(body: string) | Rejected(error: string)

  /** The outcome of adding or removing a relay; the relay configuration sent on success is not modelled. */
  datatype Edit = Applied | Refused(error: string)

  /** FORCE_OFF_AUTO_X: the code a new relay starts with. */
  const ForceOffAutoX: int := 20

  const NopRule: string := "[\"NOP\"]"

  /** The label of a new relay at slot idx: "Relay " + String(idx). */
  function DefaultLabel(idx: nat): string {
    "Relay " + NatToString(idx)
  }

  /** The name of relay i in the form fields: "relay_" + String(i). */
  function RelayParam(i: nat): string {
    "relay_" + NatToString(i)
  }

  /** No pin occurs twice. */
  predicate Distinct(s: seq<int>) {
    forall i, j :: 0 <= i < j < |s| ==> s[i] != s[j]
  }

  /** The valid pins no relay in use occupies: what getGpioOptions lists. */
  function FreePins(valid: seq<int>, used: seq<int>): (r: set<int>)
    ensures forall p :: p in r <==> p in valid && p !in used
  {
    set p | p in valid && p !in used
  }

  /**
   * `s` after the left shift that removes entry idx from the first count:
   * the entries after idx move down one place and the old entry count-1
   * stays where it was.
   */
  function ShiftLeft<T>(s: seq<T>, idx: nat, count: nat): (r: seq<T>)
    requires idx < count <= |s|
    ensures |r| == |s|
    ensures r[..count - 1] == s[..idx] + s[idx + 1..count]
    ensures r[count - 1..] == s[count - 1..]
  {
    s[..idx] + s[idx + 1..count] + s[count - 1..]
  }

  /** The array while the shift is under way: slots idx..i-1 already hold their successors. */
  function Shifting<T>(s: seq<T>, idx: nat, i: nat): (r: seq<T>)
    requires idx <= i < |s|
    ensures |r| == |s|
  {
    s[..idx] + s[idx + 1..i + 1] + s[i..]
  }

  /** One step of the shift loop. */
  lemma ShiftStep<T>(s: seq<T>, idx: nat, i: nat)
    requires idx <= i && i + 1 < |s|
    ensures Shifting(s, idx, i)[i + 1] == s[i + 1]
    ensures Shifting(s, idx, i)[i := s[i + 1]] == Shifting(s, idx, i + 1)
  {
    var a, b := Shifting(s, idx, i)[i := s[i + 1]], Shifting(s, idx, i + 1);
    forall k | 0 <= k < |s|
      ensures a[k] == b[k]
    {
      if k < idx {
      } else if k < i + 1 {
        assert b[k] == s[k + 1];
      } else {
        assert b[k] == s[k];
      }
    }
  }

  lemma ShiftDone<T>(s: seq<T>, idx: nat, count: nat)
    requires idx < count <= |s|
    ensures Shifting(s, idx, count - 1) == ShiftLeft(s, idx, count)
    ensures Shifting(s, idx, idx) == s
  {
    assert s[..idx] + s[idx..] == s;
  }

  /** Removing a relay keeps the remaining pins distinct and valid. */
  lemma {:induction false} RemoveKeepsPinsDistinct(live: seq<int>, idx: nat, valid: seq<int>)
    requires idx < |live| && Distinct(live) && forall p :: p in live ==> p in valid
    ensures var rest := live[..idx] + live[idx + 1..];
            Distinct(rest) && (forall p :: p in rest ==> p in valid)
  {
    var rest := live[..idx] + live[idx + 1..];
    forall i, j | 0 <= i < j < |rest|
      ensures rest[i] != rest[j]
    {
      var i' := if i < idx then i else i + 1;
      var j' := if j < idx then j else j + 1;
      assert rest[i] == live[i'] && rest[j] == live[j'];
    }
    forall p | p in rest
      ensures p in valid
    {
      var k :| 0 <= k < |rest| && rest[k] == p;
      assert rest[k] == live[if k < idx then k else k + 1];
    }
  }

  /** After the shift the relays still in use have distinct, valid pins. */
  lemma ShiftKeepsPinsOk(before: seq<int>, after: seq<int>, idx: nat, count: nat, valid: seq<int>)
    requires idx < count <= |before| && after == ShiftLeft(before, idx, count)
    requires Distinct(before[..count]) && forall p :: p in before[..count] ==> p in valid
    ensures Distinct(after[..count - 1]) && forall p :: p in after[..count - 1] ==> p in valid
  {
    var live := before[..count];
    assert after[..count - 1] == live[..idx] + live[idx + 1..];
    RemoveKeepsPinsDistinct(live, idx, valid);
  }

  /** A pin taken by a new relay leaves the options; nothing else changes. */
  lemma AddTakesOption(valid: seq<int>, live: seq<int>, pin: int)
    ensures FreePins(valid, live + [pin]) == FreePins(valid, live) - {pin}
  {
    assert forall p :: p in live + [pin] <==> p in live || p == pin;
  }

  /** Removing relay idx frees its pin, and only that pin, when the pins are distinct. */
  lemma RemoveFreesOption(valid: seq<int>, live: seq<int>, idx: nat)
    requires idx < |live| && Distinct(live) && live[idx] in valid
    ensures FreePins(valid, live[..idx] + live[idx + 1..]) == FreePins(valid, live) + {live[idx]}
  {
    var rest := live[..idx] + live[idx + 1..];
    assert live == live[..idx] + [live[idx]] + live[idx + 1..];
    assert live[idx] !in rest by {
      forall k | 0 <= k < |rest|
        ensures rest[k] != live[idx]
      {
        assert rest[k] == live[if k < idx then k else k + 1];
      }
    }
    assert forall p :: p in live <==> p in rest || p == live[idx];
  }

  /**
   * The shift loop of removeRelay on one array: slots idx..count-2 take
   * their successors.
   */
  method ShiftOut<T>(a: array<T>, idx: nat, count: nat)
    requires idx < count <= a.Length
    modifies a
    ensures a[..] == ShiftLeft(old(a[..]), idx, count)
  {
    ShiftDone(a[..], idx, count);
    var i := idx;
    while i < count - 1
      invariant idx <= i <= count - 1
      invariant a[..] == Shifting(old(a[..]), idx, i)
    {
      ShiftStep(old(a[..]), idx, i);
      a[i] := a[i + 1];
      i := i + 1;
    }
    ShiftDone(old(a[..]), idx, count);
  }

  class RelayTable {
    const maxRelays: nat
    /** VALID_GPIO_PINS of the board. */
    const validPins: seq<int>
    const pins: array<int>
    const inverted: array<bool>
    const values: array<int>
    const rules: array<string>
    const labels: array<string>
    var count: nat

    /** The arrays hold MAX_RELAYS slots and at most that many are in use. */
    ghost predicate Valid()
      reads this
    {
      pins.Length == maxRelays && inverted.Length == maxRelays && values.Length == maxRelays
      && rules.Length == maxRelays && labels.Length == maxRelays
      && count <= maxRelays
      && pins != values && rules != labels
    }

    /** The relays in use have distinct, valid pins. */
    ghost predicate PinsOk()
      requires Valid()
      reads this, pins
    {
      Distinct(pins[..count]) && forall p :: p in pins[..count] ==> p in validPins
    }

    /** An empty table with room for maxRelays relays. */
    constructor(maxRelays: nat, validPins: seq<int>)
      ensures Valid() && PinsOk()
      ensures this.maxRelays == maxRelays && this.validPins == validPins && count == 0
    {
      this.maxRelays := maxRelays;
      this.validPins := validPins;
      pins := new int[maxRelays];
      inverted := new bool[maxRelays];
      values := new int[maxRelays](_ => ForceOffAutoX);
      rules := new string[maxRelays];
      labels := new string[maxRelays];
      count := 0;
    }

    /** Whether a relay in use already has `pin`: the loop of addRelay. */
    method PinUsed(pin: int) returns (used: bool)
      requires Valid()
      ensures used <==> pin in pins[..count]
    {
      var i := 0;
      while i < count
        invariant 0 <= i <= count
        invariant pin !in pins[..i]
      {
        if pins[i] == pin {
          return true;
        }
        assert pins[..i + 1] == pins[..i] + [pins[i]];
        i := i + 1;
      }
      return false;
    }

    /**
     * addRelay: the pin is required, there must be a free slot, the pin must
     * be valid and not in use; then slot count is filled and count grows.
     * The new relay is inverted when the inversion field is missing or
     * reads as 1.
     */
    method AddRelay(pinParam: Option<string>, invParam: Option<string>) returns (r: Edit)
      requires Valid() && PinsOk()
      modifies this, pins, inverted, values, rules, labels
      ensures Valid() && PinsOk()
      ensures pinParam.None? ==> r == Refused("pin required")
      ensures pinParam.Some? && old(count) >= maxRelays ==> r == Refused("max relays reached")
      ensures pinParam.Some? && old(count) < maxRelays && Atoi(pinParam.value) !in validPins ==> r == Refused("invalid pin")
      ensures (pinParam.Some? && old(count) < maxRelays && Atoi(pinParam.value) in validPins
               && Atoi(pinParam.value) in old(pins[..count])) ==> r == Refused("pin already used")
      ensures r.Refused? ==>
                count == old(count) && pins[..] == old(pins[..]) && inverted[..] == old(inverted[..])
                && values[..] == old(values[..]) && rules[..] == old(rules[..]) && labels[..] == old(labels[..])
      ensures r.Applied? ==>
                count == old(count) + 1
                && pins[..] == old(pins[..])[old(count) := Atoi(pinParam.value)]
                && inverted[..] == old(inverted[..])[old(count) := invParam.None? || Atoi(invParam.value) == 1]
                && values[..] == old(values[..])[old(count) := ForceOffAutoX]
                && rules[..] == old(rules[..])[old(count) := NopRule]
                && labels[..] == old(labels[..])[old(count) := DefaultLabel(old(count))]
      ensures r.Applied? <==> (pinParam.Some? && old(count) < maxRelays && Atoi(pinParam.value) in validPins
                               && Atoi(pinParam.value) !in old(pins[..count]))
    {
      if pinParam.None? {
        return Refused("pin required");
      }
      var pin := Atoi(pinParam.value);
      var inv := if invParam.Some? then Atoi(invParam.value) == 1 else true;
      if count >= maxRelays {
        return Refused("max relays reached");
      }
      if pin !in validPins {
        return Refused("invalid pin");
      }
      var used := PinUsed(pin);
      if used {
        return Refused("pin already used");
      }
      PlaceRelay(pin, inv);
      r := Applied;
    }

    /** The new relay fills slot count, which then counts as in use. */
    method PlaceRelay(pin: int, inv: bool)
      requires Valid() && PinsOk() && count < maxRelays
      requires pin in validPins && pin !in pins[..count]
      modifies this, pins, inverted, values, rules, labels
      ensures Valid() && PinsOk()
      ensures count == old(count) + 1
      ensures pins[..] == old(pins[..])[old(count) := pin]
      ensures inverted[..] == old(inverted[..])[old(count) := inv]
      ensures values[..] == old(values[..])[old(count) := ForceOffAutoX]
      ensures rules[..] == old(rules[..])[old(count) := NopRule]
      ensures labels[..] == old(labels[..])[old(count) := DefaultLabel(old(count))]
    {
      var idx := count;
      pins[idx] := pin;
      inverted[idx] := inv;
      values[idx] := ForceOffAutoX;
      rules[idx] := NopRule;
      labels[idx] := DefaultLabel(idx);
      count := count + 1;
      assert pins[..count] == old(pins[..count]) + [pin];
    }

    /**
     * removeRelay: the index defaults to the last relay; one outside the
     * relays in use is rejected. The later relays of all five arrays move
     * down one slot and count shrinks.
     */
    method RemoveRelay(indexParam: Option<string>) returns (r: Edit)
      requires Valid() && PinsOk()
      modifies this, pins, inverted, values, rules, labels
      ensures Valid() && PinsOk()
      ensures var idx := if indexParam.Some? then Atoi(indexParam.value) else old(count) - 1;
              r.Applied? <==> 0 <= idx < old(count)
      ensures r.Refused? ==>
                r == Refused("invalid index")
                && count == old(count) && pins[..] == old(pins[..]) && inverted[..] == old(inverted[..])
                && values[..] == old(values[..]) && rules[..] == old(rules[..]) && labels[..] == old(labels[..])
      ensures r.Applied? ==>
                var idx: nat := if indexParam.Some? then Atoi(indexParam.value) else old(count) - 1;
                idx < old(count)
                && count == old(count) - 1
                && pins[..] == ShiftLeft(old(pins[..]), idx, old(count))
                && inverted[..] == ShiftLeft(old(inverted[..]), idx, old(count))
                && values[..] == ShiftLeft(old(values[..]), idx, old(count))
                && rules[..] == ShiftLeft(old(rules[..]), idx, old(count))
                && labels[..] == ShiftLeft(old(labels[..]), idx, old(count))
    {
      var idx := count - 1;
      if indexParam.Some? {
        idx := Atoi(indexParam.value);
      }
      if idx < 0 || idx >= count {
        return Refused("invalid index");
      }
      TakeOut(idx);
      r := Applied;
    }

    /** The relay at slot idx leaves the table; the later ones move down one slot. */
    method TakeOut(idx: nat)
      requires Valid() && PinsOk() && idx < count
      modifies this, pins, inverted, values, rules, labels
      ensures Valid() && PinsOk()
      ensures count == old(count) - 1
      ensures pins[..] == ShiftLeft(old(pins[..]), idx, old(count))
      ensures inverted[..] == ShiftLeft(old(inverted[..]), idx, old(count))
      ensures values[..] == ShiftLeft(old(values[..]), idx, old(count))
      ensures rules[..] == ShiftLeft(old(rules[..]), idx, old(count))
      ensures labels[..] == ShiftLeft(old(labels[..]), idx, old(count))
    {
      ShiftOut(pins, idx, count);
      ShiftOut(inverted, idx, count);
      ShiftOut(values, idx, count);
      ShiftOut(rules, idx, count);
      ShiftOut(labels, idx, count);
      count := count - 1;
      ShiftKeepsPinsOk(old(pins[..]), pins[..], idx, old(count), validPins);
    }

    /** getGpioOptions: the valid pins that no relay in use occupies. */
    method GetGpioOptions() returns (opts: set<int>)
      requires Valid()
      ensures opts == FreePins(validPins, pins[..count])
    {
      var used: set<int> := {};
      for i := 0 to count
        invariant used == set k | 0 <= k < i :: pins[k]
      {
        used := used + {pins[i]};
      }
      assert forall p :: p in used <==> p in pins[..count];
      opts := {};
      for j := 0 to |validPins|
        invariant opts == set p | p in validPins[..j] && p !in used
      {
        if validPins[j] !in used {
          opts := opts + {validPins[j]};
        }
        assert validPins[..j + 1] == validPins[..j] + [validPins[j]];
      }
      assert validPins[..|validPins|] == validPins;
    }

    /**
     * setRelays: every relay in use whose "relay_<i>" field is present takes
     * that field's integer as its code; the others keep theirs.
     */
    method SetRelays(form: map<string, string>)
      requires Valid()
      modifies values
      ensures forall i :: 0 <= i < values.Length ==>
                values[i] == if i < count && RelayParam(i) in form then Atoi(form[RelayParam(i)]) else old(values[i])
    {
      for i := 0 to count
        invariant forall k :: 0 <= k < values.Length ==>
                    values[k] == if k < i && RelayParam(k) in form then Atoi(form[RelayParam(k)]) else old(values[k])
      {
        var name := RelayParam(i);
        if name in form {
          values[i] := Atoi(form[name]);
        }
      }
    }

    /** getRule: the rule of relay i; a missing or out-of-range index is rejected. */
    method GetRule(indexParam: Option<string>) returns (r: Reply)
      requires Valid()
      ensures var relay := if indexParam.Some? then Atoi(indexParam.value) else -1;
              (relay < 0 || relay >= count ==> r == Rejected("Relay not found"))
              && (0 <= relay < count ==> r == Ok(rules[relay]))
    {
      var relay := -1;
      if indexParam.Some? {
        relay := Atoi(indexParam.value);
      }
      if relay < 0 || relay >= count {
        return Rejected("Relay not found");
      }
      return Ok(rules[relay]);
    }

    /** setRule: both fields are required, the index must name a relay in use. */
    method SetRule(indexParam: Option<string>, rule: Option<string>) returns (r: Reply)
      requires Valid()
      modifies rules
      ensures indexParam.None? || rule.None? ==> r == Rejected("Relay or rules not found") && rules[..] == old(rules[..])
      ensures indexParam.Some? && rule.Some? ==>
                var relay := Atoi(indexParam.value);
                (relay < 0 || relay >= count ==> r == Rejected("Relay not found") && rules[..] == old(rules[..]))
                && (0 <= relay < count ==> r == Ok(rule.value) && rules[..] == old(rules[..])[relay := rule.value])
    {
      if indexParam.None? || rule.None? {
        return Rejected("Relay or rules not found");
      }
      var relay := Atoi(indexParam.value);
      if relay < 0 || relay >= count {
        return Rejected("Relay not found");
      }
      rules[relay] := rule.value;
      return Ok(rules[relay]);
    }

    /** setRelayLabel: the same checks as setRule, on the labels. */
    method SetRelayLabel(indexParam: Option<string>, newLabel: Option<string>) returns (r: Reply)
      requires Valid()
      modifies labels
      ensures indexParam.None? || newLabel.None? ==> r == Rejected("Relay or label not found") && labels[..] == old(labels[..])
      ensures indexParam.Some? && newLabel.Some? ==>
                var relay := Atoi(indexParam.value);
                (relay < 0 || relay >= count ==> r == Rejected("Relay not found") && labels[..] == old(labels[..]))
                && (0 <= relay < count ==> r == Ok(newLabel.value) && labels[..] == old(labels[..])[relay := newLabel.value])
    {
      if indexParam.None? || newLabel.None? {
        return Rejected("Relay or label not found");
      }
      var relay := Atoi(indexParam.value);
      if relay < 0 || relay >= count {
        return Rejected("Relay not found");
      }
      labels[relay] := newLabel.value;
      return Ok(labels[relay]);
    }
  }
}

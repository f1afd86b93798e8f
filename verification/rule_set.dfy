// processRuleSet: rule i drives relay i. Before the rule runs, relay_i is
// set to "don't care" (2.0); a rule that does not parse is skipped; the
// rule's own SET calls drive their actuators; and a numeric result drives
// relay_i with that number. Void and Error results drive nothing more.
//
// Actuators are the relay setter of the bridge, so every setter call
// rewrites the tens digit of one entry of the relay table.

module RuleSet {
  import opened Wrappers
  import opened Values
  import opened RuleJson
  import opened Core
  import opened Relays

  /** Every actuator the environment hands out indexes a relay table of size n. */
  ghost predicate ActuatorsBelow(env: Env, n: nat) {
    (forall name :: env.tryGetActuator(name).Some? ==> 0 <= env.tryGetActuator(name).value < n)
    && (env.lookup.BuiltIns? ==>
          forall name :: env.lookup.readValue(name).Some? && env.lookup.readValue(name).value.Actuator? ==>
            0 <= env.lookup.readValue(name).value.setter < n)
  }

  predicate WritesBelow(ws: seq<Write>, n: nat) {
    forall w :: w in ws ==> 0 <= w.actuator < n
  }

  /** A larger table holds every actuator a smaller one does. */
  lemma ActuatorsBelowMonotone(env: Env, n: nat, m: nat)
    requires ActuatorsBelow(env, n) && n <= m
    ensures ActuatorsBelow(env, m)
  {
  }

  /** A sound outcome of such an environment only drives relays of the table. */
  lemma OutcomeBelow(env: Env, n: nat, o: Outcome)
    requires ActuatorsBelow(env, n) && Sound(env, o)
    ensures WritesBelow(o.writes, n)
  {
    forall w | w in o.writes
      ensures 0 <= w.actuator < n
    {
      assert Resolvable(env, w.actuator);
      var name :| env.tryGetActuator(name) == Some(w.actuator)
                  || (env.lookup.BuiltIns? && env.lookup.readValue(name) == Some(Actuator(w.actuator)));
    }
  }

  /** One setter call: the tens digit of relay `id` becomes the truncated level. */
  function Drive(relays: seq<int>, id: int, level: real): (r: seq<int>)
    requires 0 <= id < |relays|
    ensures |r| == |relays|
  {
    relays[id := WithAutoDigit(relays[id], level)]
  }

  /** The relay table after the setter calls `ws`, in order. */
  function ApplyWrites(relays: seq<int>, ws: seq<Write>): (r: seq<int>)
    requires WritesBelow(ws, |relays|)
    ensures |r| == |relays|
  {
    if ws == [] then relays
    else
      var w := ws[|ws| - 1];
      assert w in ws;
      Drive(ApplyWrites(relays, ws[..|ws| - 1]), w.actuator, w.level)
  }

  /** processRuleSet's handling of rule i. */
  function RuleStep(relays: seq<int>, i: nat, rule: string, parse: string -> Option<Json>, env: Env): (r: seq<int>)
    requires ActuatorsBelow(env, |relays|)
    ensures |r| == |relays|
  {
    var id := env.tryGetActuator(RelayName(i));
    var reset := if id.Some? then Drive(relays, id.value, 2.0) else relays;
    match parse(rule)
    case None => reset
    case Some(doc) =>
      var out := Eval(doc, env);
      OutcomeBelow(env, |relays|, out);
      var after := ApplyWrites(reset, out.writes);
      if out.value.IsNumeric() && id.Some? then Drive(after, id.value, AsFloat(out.value)) else after
  }

  /** The relay table after processRuleSet has handled `rules`, rule i driving relay_i. */
  function RunRuleSet(relays: seq<int>, rules: seq<string>, parse: string -> Option<Json>, env: Env): (r: seq<int>)
    requires ActuatorsBelow(env, |relays|)
    ensures |r| == |relays|
  {
    if rules == [] then relays
    else
      var n := |rules| - 1;
      RuleStep(RunRuleSet(relays, rules[..n], parse, env), n, rules[n], parse, env)
  }

  /** A rule set of one rule is one step of the driver. */
  lemma RunOneRule(relays: seq<int>, rule: string, parse: string -> Option<Json>, env: Env)
    requires ActuatorsBelow(env, |relays|)
    ensures RunRuleSet(relays, [rule], parse, env) == RuleStep(relays, 0, rule, parse, env)
  {
    assert [rule][..0] == [];
  }

  /** Carry out the setter calls of a rule on the relay table. */
  method ApplyWritesTo(relays: array<int>, ws: seq<Write>)
    requires WritesBelow(ws, relays.Length)
    modifies relays
    ensures relays[..] == ApplyWrites(old(relays[..]), ws)
  {
    var j := 0;
    while j < |ws|
      invariant 0 <= j <= |ws|
      invariant WritesBelow(ws[..j], relays.Length)
      invariant relays[..] == ApplyWrites(old(relays[..]), ws[..j])
    {
      assert ws[j] in ws;
      SetRelay(relays, ws[j].actuator, ws[j].level);
      assert ws[..j + 1][..j] == ws[..j];
      j := j + 1;
    }
    assert ws[..j] == ws;
  }

  /**
   * processRuleSet: the rules are handled in order, rule i first resetting
   * relay_i to "don't care" and, when it yields a number, driving relay_i.
   */
  method ProcessRuleSet(rules: seq<string>, parse: string -> Option<Json>, env: Env, relays: array<int>)
    requires ActuatorsBelow(env, relays.Length)
    modifies relays
    ensures relays[..] == RunRuleSet(old(relays[..]), rules, parse, env)
  {
    for i := 0 to |rules|
      invariant relays[..] == RunRuleSet(old(relays[..]), rules[..i], parse, env)
    {
      HandleRule(i, rules[i], parse, env, relays);
      assert rules[..i + 1][..i] == rules[..i];
    }
    assert rules[..|rules|] == rules;
  }

  /** The body of processRuleSet's loop for rule i. */
  method HandleRule(i: nat, rule: string, parse: string -> Option<Json>, env: Env, relays: array<int>)
    requires ActuatorsBelow(env, relays.Length)
    modifies relays
    ensures relays[..] == RuleStep(old(relays[..]), i, rule, parse, env)
  {
    var id := env.tryGetActuator(RelayName(i));
    if id.Some? {
      SetRelay(relays, id.value, 2.0);
    }
    var doc := parse(rule);
    if doc.Some? {
      var out := Eval(doc.value, env);
      OutcomeBelow(env, relays.Length, out);
      ApplyWritesTo(relays, out.writes);
      if out.value.IsNumeric() && id.Some? {
        SetRelay(relays, id.value, AsFloat(out.value));
      }
    }
  }

  // ---------------------------------------------------------------------
  // What a setter call sequence does to the table
  // ---------------------------------------------------------------------

  /** A relay no setter call names keeps its code. */
  lemma {:induction false} ApplyWritesFrame(relays: seq<int>, ws: seq<Write>, k: int)
    requires WritesBelow(ws, |relays|) && 0 <= k < |relays|
    requires forall w :: w in ws ==> w.actuator != k
    ensures ApplyWrites(relays, ws)[k] == relays[k]
  {
    if ws != [] {
      var pre := ws[..|ws| - 1];
      assert forall w :: w in pre ==> w in ws;
      assert ws[|ws| - 1] in ws;
      ApplyWritesFrame(relays, pre, k);
    }
  }

  /**
   * Setter calls with non-negative levels on non-negative codes keep every
   * force digit: only the auto digits change.
   */
  lemma {:induction false} ApplyWritesKeepsForce(relays: seq<int>, ws: seq<Write>)
    requires WritesBelow(ws, |relays|)
    requires forall k :: 0 <= k < |relays| ==> relays[k] >= 0
    requires forall w :: w in ws ==> w.level >= 0.0
    ensures var r := ApplyWrites(relays, ws);
            forall k :: 0 <= k < |r| ==> r[k] >= 0 && ForceDigit(r[k]) == ForceDigit(relays[k])
  {
    if ws != [] {
      var pre := ws[..|ws| - 1];
      assert forall w :: w in pre ==> w in ws;
      var w := ws[|ws| - 1];
      assert w in ws;
      ApplyWritesKeepsForce(relays, pre);
      var mid := ApplyWrites(relays, pre);
      assert 0 <= w.actuator < |mid|;
      assert w.level >= 0.0;
      assert mid[w.actuator] >= 0;
      WithAutoDigitDigits(mid[w.actuator], w.level);
    }
  }

  /** One setter call with a non-negative level keeps every code non-negative and every force digit. */
  lemma DriveKeepsForce(relays: seq<int>, id: int, level: real)
    requires 0 <= id < |relays| && level >= 0.0
    requires forall k :: 0 <= k < |relays| ==> relays[k] >= 0
    ensures var r := Drive(relays, id, level);
            forall k :: 0 <= k < |r| ==> r[k] >= 0 && ForceDigit(r[k]) == ForceDigit(relays[k])
  {
    WithAutoDigitDigits(relays[id], level);
  }

  /** ApplyWritesKeepsForce at one relay. */
  lemma ApplyWritesKeepsForceAt(relays: seq<int>, ws: seq<Write>, k: int)
    requires WritesBelow(ws, |relays|) && 0 <= k < |relays|
    requires forall j :: 0 <= j < |relays| ==> relays[j] >= 0
    requires forall w :: w in ws ==> w.level >= 0.0
    ensures ApplyWrites(relays, ws)[k] >= 0
    ensures ForceDigit(ApplyWrites(relays, ws)[k]) == ForceDigit(relays[k])
  {
    ApplyWritesKeepsForce(relays, ws);
  }

  // ---------------------------------------------------------------------
  // One rule
  // ---------------------------------------------------------------------

  /** A rule that does not parse only resets relay_i to "don't care". */
  lemma RuleStepUnparsable(relays: seq<int>, i: nat, rule: string, parse: string -> Option<Json>, env: Env, id: int)
    requires ActuatorsBelow(env, |relays|)
    requires parse(rule).None? && env.tryGetActuator(RelayName(i)) == Some(id)
    ensures 0 <= id < |relays|
    ensures var r := RuleStep(relays, i, rule, parse, env);
            (forall k :: 0 <= k < |relays| && k != id ==> r[k] == relays[k])
            && (relays[id] >= 0 ==> AutoDigit(r[id]) == 2 && ForceDigit(r[id]) == ForceDigit(relays[id]))
  {
    if relays[id] >= 0 {
      WithAutoDigitDigits(relays[id], 2.0);
    }
  }

  /**
   * A rule with a numeric result has the last word on relay_i: whatever its
   * own SET calls did, the auto digit of relay_i ends as the truncated
   * result, and its force digit is kept.
   */
  lemma RuleStepNumericResult(relays: seq<int>, i: nat, rule: string, parse: string -> Option<Json>, env: Env, id: int, doc: Json)
    requires ActuatorsBelow(env, |relays|)
    requires parse(rule) == Some(doc) && env.tryGetActuator(RelayName(i)) == Some(id)
    requires Eval(doc, env).value.IsNumeric() && AsFloat(Eval(doc, env).value) >= 0.0
    requires forall k :: 0 <= k < |relays| ==> relays[k] >= 0
    requires forall w :: w in Eval(doc, env).writes ==> w.level >= 0.0
    ensures 0 <= id < |relays|
    ensures var r := RuleStep(relays, i, rule, parse, env);
            AutoDigit(r[id]) == Trunc(AsFloat(Eval(doc, env).value))
            && ForceDigit(r[id]) == ForceDigit(relays[id])
  {
    var out := Eval(doc, env);
    OutcomeBelow(env, |relays|, out);
    var reset := Drive(relays, id, 2.0);
    DriveKeepsForce(relays, id, 2.0);
    ApplyWritesKeepsForceAt(reset, out.writes, id);
    var after := ApplyWrites(reset, out.writes);
    assert RuleStep(relays, i, rule, parse, env) == Drive(after, id, AsFloat(out.value));
    WithAutoDigitDigits(after[id], AsFloat(out.value));
  }

  /**
   * A numeric result of -1 or below (getCurrentTime's -1 on a clock
   * failure, or any negative arithmetic) leaves relay_i outside the nine
   * codes: its code turns negative, and a force digit of 1 or 2 is no
   * longer kept but reads back as that digit minus 10.
   */
  lemma RuleStepNegativeResult(relays: seq<int>, i: nat, rule: string, parse: string -> Option<Json>, env: Env, id: int, doc: Json)
    requires ActuatorsBelow(env, |relays|)
    requires parse(rule) == Some(doc) && env.tryGetActuator(RelayName(i)) == Some(id)
    requires Eval(doc, env).value.IsNumeric() && AsFloat(Eval(doc, env).value) <= -1.0
    requires forall w :: w in Eval(doc, env).writes ==> w.actuator != id
    requires 0 <= id < |relays| && IsRelayCode(relays[id])
    ensures var r := RuleStep(relays, i, rule, parse, env);
            r[id] == Trunc(AsFloat(Eval(doc, env).value)) * 10 + ForceDigit(relays[id])
            && !IsRelayCode(r[id])
            && ForceDigit(r[id]) == if ForceDigit(relays[id]) == 0 then 0 else ForceDigit(relays[id]) - 10
  {
    var out := Eval(doc, env);
    OutcomeBelow(env, |relays|, out);
    var reset := Drive(relays, id, 2.0);
    WithAutoDigitKeepsCodesValid(relays[id], 2.0);
    ApplyWritesFrame(reset, out.writes, id);
    var after := ApplyWrites(reset, out.writes);
    assert after[id] == reset[id];
    assert RuleStep(relays, i, rule, parse, env) == Drive(after, id, AsFloat(out.value));
    WithAutoDigitNegative(after[id], AsFloat(out.value));
  }

  /**
   * A Void or Error result drives nothing after the rule's own SET calls;
   * so when none of them names relay_i, relay_i stays at "don't care".
   */
  lemma RuleStepNoAutoWrite(relays: seq<int>, i: nat, rule: string, parse: string -> Option<Json>, env: Env, id: int, doc: Json)
    requires ActuatorsBelow(env, |relays|)
    requires parse(rule) == Some(doc) && env.tryGetActuator(RelayName(i)) == Some(id)
    requires !Eval(doc, env).value.IsNumeric()
    ensures 0 <= id < |relays|
    ensures WritesBelow(Eval(doc, env).writes, |relays|)
    ensures RuleStep(relays, i, rule, parse, env) == ApplyWrites(Drive(relays, id, 2.0), Eval(doc, env).writes)
    ensures (forall w :: w in Eval(doc, env).writes ==> w.actuator != id) && relays[id] >= 0 ==>
              AutoDigit(RuleStep(relays, i, rule, parse, env)[id]) == 2
  {
    var out := Eval(doc, env);
    OutcomeBelow(env, |relays|, out);
    if relays[id] >= 0 {
      WithAutoDigitDigits(relays[id], 2.0);
    }
    if forall w :: w in out.writes ==> w.actuator != id {
      ApplyWritesFrame(Drive(relays, id, 2.0), out.writes, id);
    }
  }

  /** A relay that is neither relay_i nor driven by rule i keeps its code. */
  lemma RuleStepFrame(relays: seq<int>, i: nat, rule: string, parse: string -> Option<Json>, env: Env, k: int)
    requires ActuatorsBelow(env, |relays|) && 0 <= k < |relays|
    requires env.tryGetActuator(RelayName(i)) != Some(k)
    requires parse(rule).Some? ==> forall w :: w in Eval(parse(rule).value, env).writes ==> w.actuator != k
    ensures RuleStep(relays, i, rule, parse, env)[k] == relays[k]
  {
    var id := env.tryGetActuator(RelayName(i));
    var reset := if id.Some? then Drive(relays, id.value, 2.0) else relays;
    if parse(rule).Some? {
      var out := Eval(parse(rule).value, env);
      OutcomeBelow(env, |relays|, out);
      ApplyWritesFrame(reset, out.writes, k);
    }
  }
}

// The ESP32 bridge: it fills the function registry with the core operators
// and the sensor functions, resolves "relay_<n>" names to the relay setter,
// copies the stored rule strings and hands them to processRuleSet, so rule
// i drives relay i of the global relay table.
//
// new_bridge.cpp repeats setRelay, the resolver and the registration of
// bridge.cpp word for word; they are modelled once, here and in Relays.

module Bridge {
  import opened Wrappers
  import opened Values
  import opened RuleJson
  import opened Registry
  import opened Sensors
  import opened BridgeFunctions
  import opened Core
  import opened CoreLaws
  import opened Relays
  import opened RuleSet
  import TimeLiteral
  import Text

  /** registerFunctions: the core operators first, then the sensor functions. */
  method RegisterFunctions(registry: FunctionRegistry)
    modifies registry
    ensures registry.handlers == old(registry.handlers) + BridgeHandlers()
  {
    RegisterCoreFunctions(registry);
    RegisterBridgeFunctions(registry);
  }

  /** The registry the bridge evaluates rules with. */
  function BridgeHandlers(): map<string, Handler> {
    CoreTable() + BridgeTable()
  }

  /**
   * Every core operator is reachable under its own name in the bridge's
   * registry, and every sensor function under its own.
   */
  lemma BridgeHandlersHoldBoth(name: string)
    ensures name in CoreTable() ==> name in BridgeHandlers() && BridgeHandlers()[name] == CoreTable()[name]
    ensures name in BridgeTable() ==> name in BridgeHandlers() && BridgeHandlers()[name] == BridgeTable()[name]
    ensures name in BridgeHandlers() <==> name in CoreTable() || name in BridgeTable()
  {
    BridgeTableDisjointFromCore();
  }

  /**
   * The environment processAutomationDsl builds around a registry, with the
   * relay index checked against the size of the relay table.
   */
  function EnvWith(handlers: map<string, Handler>, size: nat, sensors: Snapshot): Env {
    Env(name => ResolveRelay(name, size), Registered(handlers, sensors))
  }

  /** The environment of processAutomationDsl over a relay table of `size` entries. */
  function BridgeEnv(size: nat, sensors: Snapshot): Env {
    EnvWith(BridgeHandlers(), size, sensors)
  }

  /** The environment as bridge.cpp builds it: any "relay_" name is an actuator. */
  function UncheckedBridgeEnv(sensors: Snapshot): Env {
    Env(ResolveRelayUnchecked, Registered(BridgeHandlers(), sensors))
  }

  /** Every operator call with the argument count its handler demands reaches the operator. */
  lemma BridgeRoutes(env: Env, op: Builtin, n: nat)
    requires env.lookup.Registered? && env.lookup.handlers == BridgeHandlers()
    requires Arity(op).None? || Arity(op).value == n
    ensures Routes(env, op, n)
  {
    var name := OperatorName(op);
    OperatorNameRoundTrip(op, name);
    CoreTableIsBuiltIns(name);
    BridgeHandlersHoldBoth(name);
  }

  /** With the checked resolver every actuator of the bridge is a relay of the table. */
  lemma BridgeEnvBelow(size: nat, sensors: Snapshot)
    ensures ActuatorsBelow(BridgeEnv(size, sensors), size)
  {
  }

  /**
   * The as-written resolver lets a rule drive a relay past the end of the
   * table: with RELAY_COUNT = size, ["SET", "relay_<size>", 1] writes
   * relay `size`, one past the last entry of RELAY_VALUES.
   */
  lemma UncheckedBridgeEscapes(size: nat, sensors: Snapshot)
    ensures !ActuatorsBelow(UncheckedBridgeEnv(sensors), size)
    ensures Eval(Call(SET, [JString(RelayName(size)), JInt(1)]), UncheckedBridgeEnv(sensors))
            == Outcome(Void, [Write(size, 1.0)])
  {
    var name := RelayName(size);
    ResolveRelayName(size, size);
    assert name[0] == 'r';
    var env := UncheckedBridgeEnv(sensors);
    assert env.tryGetActuator(name) == Some(size);
    BridgeRoutes(env, SET, 3);
    SetNamedActuator(env, name, size, 1);
  }

  /** The as-written resolver also lets ["SET", "relay_-1", 1] write before the start of the table. */
  lemma UncheckedBridgeWritesNegative(k: int, sensors: Snapshot)
    requires k < 0
    ensures Eval(Call(SET, [JString(RelayPrefix + Text.IntToString(k)), JInt(1)]), UncheckedBridgeEnv(sensors))
            == Outcome(Void, [Write(k, 1.0)])
  {
    var name := RelayPrefix + Text.IntToString(k);
    var env := UncheckedBridgeEnv(sensors);
    assert env.tryGetActuator(name) == Some(k) by { UncheckedResolverOutOfRange(0, k); }
    assert !TimeLiteral.JsonIsTimeLiteral(name) by { assert name[0] == 'r'; }
    assert Routes(env, SET, 3) by { BridgeRoutes(env, SET, 3); }
    SetNamedActuator(env, name, k, 1);
  }

  /** With the checked resolver the rule on relay_<size> is UNREC_STR_ERROR and drives nothing. */
  lemma CheckedBridgeRefuses(size: nat, sensors: Snapshot)
    ensures Eval(Call(SET, [JString(RelayName(size)), JInt(1)]), BridgeEnv(size, sensors))
            == Outcome(Error(UnrecStr), [])
  {
    var name := RelayName(size);
    var env := BridgeEnv(size, sensors);
    PastTheEndUnresolved(size, sensors);
    assert Eval(JInt(1), env).writes == [];
    BridgeRoutes(env, SET, 3);
    SetOperands(env, JString(name), JInt(1));
  }

  /** The name of the relay past the end of the table is no value at all. */
  lemma PastTheEndUnresolved(size: nat, sensors: Snapshot)
    ensures Eval(JString(RelayName(size)), BridgeEnv(size, sensors)) == Pure(Error(UnrecStr))
  {
    var name := RelayName(size);
    ResolveRelayName(size, size);
    var env := BridgeEnv(size, sensors);
    assert env.tryGetActuator(name) == None;
    assert !TimeLiteral.JsonIsTimeLiteral(name) by { assert name[0] == 'r'; }
  }

  /**
   * Every relay of the table is reachable by its own name, including the
   * relays past the RUNTIME_RELAY_COUNT in use.
   */
  lemma BridgeResolvesEveryRelay(size: nat, sensors: Snapshot, i: nat)
    requires i < size
    ensures BridgeEnv(size, sensors).tryGetActuator(RelayName(i)) == Some(i)
    ensures UncheckedBridgeEnv(sensors).tryGetActuator(RelayName(i)) == Some(i)
  {
    ResolveRelayName(i, size);
  }

  /**
   * Inside the table the checked resolver is the as-written one; it refuses
   * only the indices that would write outside RELAY_VALUES.
   */
  lemma CheckedAgreesWithinTable(name: string, size: nat, sensors: Snapshot)
    ensures var u := UncheckedBridgeEnv(sensors).tryGetActuator(name);
            BridgeEnv(size, sensors).tryGetActuator(name) == if u.Some? && 0 <= u.value < size then u else None
  {
  }

  /** ["SET", "relay_<k>", 1] drives relay k for every k of the table. */
  lemma SetDrivesAnyTableRelay(size: nat, sensors: Snapshot, k: nat)
    requires k < size
    ensures Eval(Call(SET, [JString(RelayName(k)), JInt(1)]), BridgeEnv(size, sensors))
            == Outcome(Void, [Write(k, 1.0)])
  {
    var env := BridgeEnv(size, sensors);
    var name := RelayName(k);
    assert env.tryGetActuator(name) == Some(k) by { BridgeResolvesEveryRelay(size, sensors, k); }
    assert !TimeLiteral.JsonIsTimeLiteral(name) by { assert name[0] == 'r'; }
    assert Routes(env, SET, 3) by { BridgeRoutes(env, SET, 3); }
    SetNamedActuator(env, name, k, 1);
  }

  /**
   * With only rule 0 in use, the rule ["SET", "relay_<k>", 1] drives relay
   * k of the table, which no rule owns: relay k goes auto on and keeps its
   * force digit, and relay 0 is left at don't care.
   */
  lemma RuleDrivesRelayOutsideRulesInUse(relays: seq<int>, rule: string, parse: string -> Option<Json>,
                                         sensors: Snapshot, k: nat)
    requires 0 < k < |relays| && forall m :: 0 <= m < |relays| ==> IsRelayCode(relays[m])
    requires parse(rule) == Some(Call(SET, [JString(RelayName(k)), JInt(1)]))
    ensures var r := RunRuleSet(relays, [rule], parse, BridgeEnv(|relays|, sensors));
            r[k] == WithAutoDigit(relays[k], 1.0) && AutoDigit(r[k]) == 1 && ForceDigit(r[k]) == ForceDigit(relays[k])
            && AutoDigit(r[0]) == 2 && ForceDigit(r[0]) == ForceDigit(relays[0])
  {
    var env := BridgeEnv(|relays|, sensors);
    BridgeEnvBelow(|relays|, sensors);
    var step := RuleStep(relays, 0, rule, parse, env);
    assert step[k] == WithAutoDigit(relays[k], 1.0) && step[0] == WithAutoDigit(relays[0], 2.0) by {
      var doc := Call(SET, [JString(RelayName(k)), JInt(1)]);
      SetDrivesAnyTableRelay(|relays|, sensors, k);
      BridgeResolvesEveryRelay(|relays|, sensors, 0);
      RuleStepNoAutoWrite(relays, 0, rule, parse, env, 0, doc);
      var ws := [Write(k, 1.0)];
      assert ApplyWrites(Drive(relays, 0, 2.0), ws) == Drive(Drive(relays, 0, 2.0), k, 1.0) by {
        assert ws[..0] == [];
      }
    }
    WithAutoDigitKeepsCodesValid(relays[0], 2.0);
    WithAutoDigitKeepsCodesValid(relays[k], 1.0);
    RunOneRule(relays, rule, parse, env);
  }

  /**
   * processAutomationDsl: build the registry, copy the first `count`
   * (RUNTIME_RELAY_COUNT) rule strings, and run the rule set over the whole
   * relay table RELAY_VALUES. A rule may drive any relay of the table, in
   * use or not.
   */
  method ProcessAutomationDsl(relayRules: array<string>, count: nat, relays: array<int>,
                              parse: string -> Option<Json>, sensors: Snapshot)
    requires count <= relayRules.Length && count <= relays.Length
    modifies relays
    ensures relays[..] == RunRuleSet(old(relays[..]), relayRules[..count], parse, BridgeEnv(relays.Length, sensors))
  {
    var registry := new FunctionRegistry();
    RegisterFunctions(registry);
    assert registry.handlers == BridgeHandlers();
    var env := EnvWith(registry.handlers, relays.Length, sensors);
    var stdRules: seq<string> := [];
    for i := 0 to count
      invariant stdRules == relayRules[..i]
    {
      stdRules := stdRules + [relayRules[i]];
    }
    BridgeEnvBelow(relays.Length, sensors);
    ProcessRuleSet(stdRules, parse, env, relays);
  }

  /** ["GT", ["getTemperature"], 25] at 30 degrees is true and drives nothing by itself. */
  lemma WarmRuleIsTrue(size: nat, sensors: Snapshot)
    requires sensors.temperature == 30.0
    ensures Eval(Call(GT, [JArray([JString("getTemperature")]), JInt(25)]), BridgeEnv(size, sensors)) == Pure(Float(1.0))
  {
    var env := BridgeEnv(size, sensors);
    var temp := JArray([JString("getTemperature")]);
    BridgeHandlersHoldBoth("getTemperature");
    SensorCall("getTemperature", [], env, Temperature);
    assert [JString("getTemperature")] + [] == [JString("getTemperature")];
    assert Eval(temp, env) == Pure(Float(30.0));
    ScalarLiterals(env, false, 25, 0.0);
    BridgeRoutes(env, GT, 3);
    OrderingOperators(env, GT, temp, JInt(25));
    CompareOperands(env, GT, temp, JInt(25));
  }

  /**
   * The simple rule ["GT", ["getTemperature"], 25] at 30 degrees switches
   * its own relay to auto on and keeps the relay's force digit.
   */
  lemma SimpleRuleDrivesItsRelay(relays: seq<int>, i: nat, rule: string, parse: string -> Option<Json>, sensors: Snapshot)
    requires i < |relays| && forall k :: 0 <= k < |relays| ==> relays[k] >= 0
    requires sensors.temperature == 30.0
    requires parse(rule) == Some(Call(GT, [JArray([JString("getTemperature")]), JInt(25)]))
    ensures var r := RuleStep(relays, i, rule, parse, BridgeEnv(|relays|, sensors));
            AutoDigit(r[i]) == 1 && ForceDigit(r[i]) == ForceDigit(relays[i])
  {
    var env := BridgeEnv(|relays|, sensors);
    WarmRuleIsTrue(|relays|, sensors);
    ResolveRelayName(i, |relays|);
    BridgeEnvBelow(|relays|, sensors);
    RuleStepNumericResult(relays, i, rule, parse, env, i, parse(rule).value);
  }
}
